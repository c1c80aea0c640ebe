/** What one result event does to the ledger: the collector's decision and its write. */
module Collect {
  import opened Wrappers
  import opened Rows
  import opened LedgerTx

  /** The wire codes of an execution outcome; any other code also reads as failed. */
  const WIRE_SUCCEEDED := 1
  const WIRE_DEAD := 3

  datatype ResultEvent = ResultEvent(
    taskId: TaskId, attempt: int, outcome: int, result: Json, error: string, finishedUnixMs: int)

  function OutcomeOf(wire: int): Outcome {
    if wire == WIRE_SUCCEEDED then Succeeded
    else if wire == WIRE_DEAD then Dead
    else Failed
  }

  function RequestOf(ev: ResultEvent): CompleteRequest {
    CompleteRequest(ev.taskId, ev.attempt, OutcomeOf(ev.outcome),
                    if ev.result == "" then None else Some(ev.result), ev.error,
                    if ev.finishedUnixMs > 0 then Some(ev.finishedUnixMs) else None)
  }

  /** What the retry path concludes from the row it read: no row, a row of another
      attempt, an exhausted budget, or one more try. */
  datatype Decision = PassOn | Ignore | Bury | Retry

  function Decide(l: Ledger, ev: ResultEvent): Decision {
    if ev.taskId !in l.processings then PassOn
    else
      var p := l.processings[ev.taskId];
      if p.attempts != ev.attempt then Ignore
      else if p.maxAttempts > 0 && p.attempts >= p.maxAttempts then Bury
      else Retry
  }

  /** The write that follows, on whatever the tables have become by then. */
  function CarryOut(l: Ledger, ev: ResultEvent, d: Decision, nextId: TaskId, now: Time): Tx<Ledger> {
    match d
    case PassOn => CompleteTx(l, nextId, RequestOf(ev), now)
    case Ignore => Ok(l)
    case Bury => DeadLetterTx(l, nextId, ev.taskId, now)
    case Retry => RequeueTx(l, ev.taskId)
  }

  /** `readFails`: GetProcessing answers with an error although the row may exist. */
  function Conclude(l: Ledger, ev: ResultEvent, readFails: bool): Decision {
    if readFails then PassOn else Decide(l, ev)
  }

  /** Only a failed result looks at the row first. */
  function Course(l: Ledger, ev: ResultEvent, readFails: bool): Decision {
    if OutcomeOf(ev.outcome) == Failed then Conclude(l, ev, readFails) else PassOn
  }

  function ConsumeTx(l: Ledger, ev: ResultEvent, nextId: TaskId, now: Time, readFails: bool): Tx<Ledger> {
    if ev.taskId == 0 then Err(Constraint) else CarryOut(l, ev, Course(l, ev, readFails), nextId, now)
  }

  /** A scheduler's treatment of a claimed row: over budget is buried, the rest is sent. */
  function OverBudget(c: Claimed): bool { c.row.attempts > c.row.maxAttempts }

  function DispatchTx(l: Ledger, c: Claimed, nextId: TaskId, now: Time): Tx<Ledger> {
    if OverBudget(c) then DeadLetterTx(l, nextId, c.taskId, now) else Ok(l)
  }
}
