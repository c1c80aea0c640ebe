/** What the moves that read a row without locking it do when another transaction commits
    between the read and the writes, as read committed isolation allows: the terminal move
    and the requeue, which also ignore how many rows their last delete finds. */
module Isolation {
  import opened Wrappers
  import opened Rows
  import opened LedgerTx
  import opened TaskView
  import opened Collect
  import opened Protocol
  import opened History
  import opened Runs
  import opened Races

  // ----- the terminal move -----

  /** The writes of a terminal move whose reads found `proc` and `payload` earlier. */
  function LateTerminalTx(l: Ledger, nextId: TaskId, id: TaskId, proc: ProcessingRow, payload: Option<Json>,
                          outcome: Outcome, result: Option<Json>, error: string, at: Time): Tx<Ledger>
  {
    if id in l.completeds || !Completed(proc, outcome, error, at).Accepted() then Err(Constraint)
    else if id in l.results then Err(DuplicateResult)
    else DeriveTx(FinishRead(l, id, proc, payload, outcome, result, error, at), nextId, id, proc, outcome, at)
  }

  ghost predicate OnceInFlight(l: Ledger, id: TaskId, proc: ProcessingRow) {
    Inv(l) && id in l.identities && proc.Accepted() && proc.attempts >= 1
  }

  lemma LateFinishInv(l: Ledger, id: TaskId, proc: ProcessingRow, payload: Option<Json>,
                      outcome: Outcome, result: Option<Json>, error: string, at: Time)
    requires OnceInFlight(l, id, proc) && id in l.processings
    ensures Inv(FinishRead(l, id, proc, payload, outcome, result, error, at))
  {
    var l' := FinishRead(l, id, proc, payload, outcome, result, error, at);
    forall j ensures IdOk(l', j) { assert IdOk(l, j); }
  }

  lemma DeriveKeepsStages(l: Ledger, nextId: TaskId, parent: TaskId, proc: ProcessingRow, outcome: Outcome, at: Time)
    ensures var tx := DeriveTx(l, nextId, parent, proc, outcome, at);
            tx.Ok? ==> && tx.value.completeds == l.completeds && tx.value.schedulables == l.schedulables
                       && l.pendings.Keys <= tx.value.pendings.Keys
  {
  }

  lemma InTwoStages(l: Ledger, id: TaskId)
    requires id in l.completeds && (id in l.schedulables || id in l.pendings)
    ensures !Partitioned(l)
  {
  }

  /** A late terminal move that commits leaves the tables partitioned exactly when some row of
      the task is still in flight at its delete. */
  lemma LateTerminalIff(l: Ledger, nextId: TaskId, id: TaskId, proc: ProcessingRow, payload: Option<Json>,
                        outcome: Outcome, result: Option<Json>, error: string, at: Time)
    requires OnceInFlight(l, id, proc) && nextId != 0
    ensures var tx := LateTerminalTx(l, nextId, id, proc, payload, outcome, result, error, at);
            tx.Ok? ==> (Partitioned(tx.value) <==> id in l.processings)
  {
    var tx := LateTerminalTx(l, nextId, id, proc, payload, outcome, result, error, at);
    var l1 := FinishRead(l, id, proc, payload, outcome, result, error, at);
    assert IdOk(l, id);
    if tx.Ok? {
      if id in l.processings {
        LateFinishInv(l, id, proc, payload, outcome, result, error, at);
        DeriveStep(l1, nextId, id, proc, outcome, at);
        InvPartitions(tx.value);
      } else {
        DeriveKeepsStages(l1, nextId, id, proc, outcome, at);
        InTwoStages(tx.value, id);
      }
    }
  }

  /** Its whole effect is that of the serial transaction exactly when the attempt that was
      read is still in flight. */
  lemma LateIsSerialIff(r: Run, m: nat, n: nat, nextId: TaskId, id: TaskId,
                        outcome: Outcome, result: Option<Json>, error: string, at: Time)
    requires IsRun(r) && m <= n < |r.states| && id in r.states[m].l.processings && nextId != 0
    ensures var seen, l := r.states[m].l, r.states[n].l;
            var proc := seen.processings[id];
            LateTerminalTx(l, nextId, id, proc, PayloadOf(seen, id), outcome, result, error, at)
            == TerminalTx(l, nextId, id, Some(proc.attempts), outcome, result, error, at)
            <==> id in l.processings && l.processings[id].attempts == proc.attempts
  {
    var seen, l := r.states[m].l, r.states[n].l;
    InvAt(r, m);
    InvAt(r, n);
    RunIsHistory(r);
    Persists(Ledgers(r), m, n, id);
    assert IdOk(seen, id) && IdOk(l, id);
    var late := LateTerminalTx(l, nextId, id, seen.processings[id], PayloadOf(seen, id), outcome, result, error, at);
    DeriveNotStale(FinishRead(l, id, seen.processings[id], PayloadOf(seen, id), outcome, result, error, at),
                   nextId, id, seen.processings[id], outcome, at);
    assert late != Err(StaleAttempt);
  }

  lemma DeriveNotStale(l: Ledger, nextId: TaskId, parent: TaskId, proc: ProcessingRow, outcome: Outcome, at: Time)
    ensures DeriveTx(l, nextId, parent, proc, outcome, at) != Err(StaleAttempt)
  {
  }

  /** The reads of a run: what they found was once in flight. */
  lemma ReadInRun(r: Run, m: nat, n: nat, id: TaskId)
    requires IsRun(r) && m <= n < |r.states| && id in r.states[m].l.processings
    ensures OnceInFlight(r.states[n].l, id, r.states[m].l.processings[id])
  {
    InvAt(r, m);
    InvAt(r, n);
    RunIsHistory(r);
    Persists(Ledgers(r), m, n, id);
    assert IdOk(r.states[m].l, id) && IdOk(r.states[n].l, id);
  }

  /** A success is collected while R1 returns the row in between: the task ends up completed
      and schedulable at once. */
  lemma ResetBetween(nextId: TaskId) returns (r: Run, proc: ProcessingRow, l': Ledger)
    requires nextId != 0
    ensures IsRun(r) && |r.steps| == 5 && r.steps[4] == Reset({1}, 0)
    ensures 1 in r.states[4].l.processings && proc == r.states[4].l.processings[1]
    ensures LateTerminalTx(r.states[5].l, nextId, 1, proc, PayloadOf(r.states[4].l, 1), Succeeded, None, "", 1) == Ok(l')
    ensures 1 in l'.completeds && 1 in l'.schedulables && !Partitioned(l')
  {
    var r0 := FirstClaim(60000, 3, NoColumn);
    var r1 := Wait(r0, 1);
    proc := Last(r1).l.processings[1];
    r := LateReset(r1, 0);
    assert r.states[4] == Last(r1) && r.states[5] == Last(r);
    ReadInRun(r, 4, 5, 1);
    var l := Last(r).l;
    assert IdOk(l, 1);
    l' := FinishRead(l, 1, proc, PayloadOf(Last(r1).l, 1), Succeeded, None, "", 1);
    assert Wanted(proc, Succeeded) == None;
    InTwoStages(l', 1);
  }

  // ----- the requeue -----

  /** The writes of a requeue whose read found `proc` earlier. */
  function LateRequeueTx(l: Ledger, id: TaskId, proc: ProcessingRow): Tx<Ledger> {
    if id in l.schedulables || !Returned(proc).Accepted() then Err(Constraint)
    else Ok(l.(schedulables := l.schedulables[id := Returned(proc)], processings := l.processings - {id}))
  }

  /** The same holds of a late requeue. */
  lemma LateRequeueIff(l: Ledger, id: TaskId, proc: ProcessingRow)
    requires OnceInFlight(l, id, proc)
    ensures var tx := LateRequeueTx(l, id, proc);
            tx.Ok? ==> (Partitioned(tx.value) <==> id in l.processings)
  {
    var tx := LateRequeueTx(l, id, proc);
    assert IdOk(l, id);
    if tx.Ok? {
      if id in l.processings {
        forall j ensures IdOk(tx.value, j) { assert IdOk(l, j); }
        InvPartitions(tx.value);
      } else {
        assert id in tx.value.schedulables && (id in tx.value.completeds || id in tx.value.pendings);
      }
    }
  }

  const DONE := ResultEvent(1, 1, WIRE_SUCCEEDED, "", "", 0)

  lemma ReadyToComplete() returns (r: Run)
    ensures IsRun(r) && |r.steps| == 4 && SysInv(Last(r)) && DONE in Last(r).events && Last(r).now == 0
    ensures var l := Last(r).l;
            && 1 in l.processings && l.processings[1].attempts == 1
            && CompleteTx(l, 2, RequestOf(DONE), 0) == Ok(Finish(l, 1, Succeeded, None, "", 0))
  {
    var r0 := FirstClaim(60000, 3, NoColumn);
    r := Extend(r0, Emit(DONE));
    FencedDerives(Last(r).l, 2, 1, Some(1), Succeeded, None, "", 0);
  }

  /** A requeue is under way while the task completes in between: again both at once. */
  lemma CompletedBetween() returns (r: Run, proc: ProcessingRow, l': Ledger)
    ensures IsRun(r) && |r.steps| == 5 && r.steps[4].Consume?
    ensures 1 in r.states[4].l.processings && proc == r.states[4].l.processings[1]
    ensures LateRequeueTx(r.states[5].l, 1, proc) == Ok(l')
    ensures 1 in l'.completeds && 1 in l'.schedulables && !Partitioned(l')
  {
    var r1 := ReadyToComplete();
    var l := Last(r1).l;
    proc := l.processings[1];
    r := Extend(r1, Consume(DONE, 2, false));
    assert r.states[4] == Last(r1) && r.states[5] == Last(r);
    assert IdOk(l, 1);
    l' := LateRequeueTx(Last(r).l, 1, proc).value;
    InTwoStages(l', 1);
  }
}
