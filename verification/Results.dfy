/** What one consumed result does to the task it names, column by column. */
module Results {
  import opened Wrappers
  import opened Rows
  import opened LedgerTx
  import opened TaskView
  import opened Collect
  import opened Protocol
  import opened Runs

  ghost predicate OnlyTask(l: Ledger, l': Ledger, id: TaskId, nextId: TaskId) {
    forall j :: j != id && j != nextId ==> View(l', j) == View(l, j)
  }

  /** The task is completed under this attempt with exactly these values, and its payload has
      moved into the result. */
  ghost predicate EndedWith(l: Ledger, l': Ledger, id: TaskId, outcome: Outcome, result: Option<Json>, error: string, at: Time) {
    && View(l', id).Ended?
    && var c, q := View(l', id).completed, View(l', id).result;
       && c.outcome == outcome && c.error == error && c.completedAt == at && c.attempts == Attempts(l, id)
       && q == ResultRow(outcome, Attempts(l, id), View(l, id).TaskPayload(), result, error, at)
  }

  /** A terminal move by its values: done under the fence unless its callback cannot be
      created, nothing otherwise. */
  lemma TerminalValues(l: Ledger, nextId: TaskId, id: TaskId, fence: Option<int>, outcome: Outcome,
                       result: Option<Json>, error: string, at: Time)
    requires Inv(l) && nextId != 0
    ensures var tx := TerminalTx(l, nextId, id, fence, outcome, result, error, at);
            if Fenced(l, id, fence) && DerivationFits(Finish(l, id, outcome, result, error, at), nextId, id, l.processings[id], outcome)
            then tx.Ok? && EndedWith(l, tx.value, id, outcome, NonEmpty(result), error, at) && OnlyTask(l, tx.value, id, nextId)
            else tx.Err? && Commit(l, tx) == l
  {
    var tx := TerminalTx(l, nextId, id, fence, outcome, result, error, at);
    TerminalStep(l, nextId, id, fence, outcome, result, error, at);
    if tx.Ok? {
      FinishStep(l, id, outcome, result, error, at);
      EndsTaskMoves(l, tx.value, nextId, id, outcome);
      assert IdOk(l, id);
    }
  }

  /** A failed result whose own attempt is in flight: with the budget used up the task ends
      as dead, or nothing happens if its callback cannot be created; otherwise it is
      schedulable again with the same attempts. */
  lemma FailureOfTheAttempt(r: Run, n: nat, ev: ResultEvent, nextId: TaskId, now: Time)
    requires IsRun(r) && n < |r.states| && nextId != 0 && ev.taskId != 0
    requires ev.outcome != 1 && ev.outcome != 3
    requires var l := r.states[n].l; ev.taskId in l.processings && l.processings[ev.taskId].attempts == ev.attempt
    ensures var l := r.states[n].l;
            var p := l.processings[ev.taskId];
            var tx := ConsumeTx(l, ev, nextId, now, false);
            if p.maxAttempts > 0 && p.attempts >= p.maxAttempts then
              if DerivationFits(Finish(l, ev.taskId, Dead, None, "", now), nextId, ev.taskId, p, Dead)
              then tx.Ok? && EndedWith(l, tx.value, ev.taskId, Dead, None, "", now) && OnlyTask(l, tx.value, ev.taskId, nextId)
              else tx.Err? && Commit(l, tx) == l
            else
              && tx.Ok? && View(tx.value, ev.taskId).Schedulable? && OnlyTask(l, tx.value, ev.taskId, ev.taskId)
              && var v, v' := View(l, ev.taskId), View(tx.value, ev.taskId);
                 && v'.sched.attempts == p.attempts && v'.Public() == v.Public() && v'.TaskPayload() == v.TaskPayload()
                 && v'.Bucket() == v.Bucket() && v'.ClaimedNode() == v.ClaimedNode() && v'.UpdatedAt() == v.UpdatedAt()
  {
    var l := r.states[n].l;
    InvAt(r, n);
    assert IdOk(l, ev.taskId);
    TerminalValues(l, nextId, ev.taskId, None, Dead, None, "", now);
    ReturnStep(l, {ev.taskId});
    EdgeRaisesPhase(View(l, ev.taskId), View(ReturnTx(l, {ev.taskId}).value, ev.taskId));
  }

  /** A failed result of any other attempt, or of a task not in flight, changes nothing. */
  lemma FailureOfNoAttempt(r: Run, n: nat, ev: ResultEvent, nextId: TaskId, now: Time)
    requires IsRun(r) && n < |r.states| && nextId != 0 && ev.taskId != 0
    requires ev.outcome != 1 && ev.outcome != 3
    requires var l := r.states[n].l; ev.taskId !in l.processings || l.processings[ev.taskId].attempts != ev.attempt
    ensures Commit(r.states[n].l, ConsumeTx(r.states[n].l, ev, nextId, now, false)) == r.states[n].l
  {
    InvAt(r, n);
    var q := RequestOf(ev);
    TerminalValues(r.states[n].l, nextId, ev.taskId, Some(ev.attempt), q.outcome, q.result, q.error, q.completedAt.GetOr(now));
  }

  /** A result with code 1 ends its attempt as succeeded and one with code 3 as dead, with the
      result and error it carries and its own finishing time if it has one; nothing happens if
      its attempt is not in flight or the callback cannot be created. */
  lemma FinalResult(r: Run, n: nat, ev: ResultEvent, nextId: TaskId, now: Time, readFails: bool)
    requires IsRun(r) && n < |r.states| && nextId != 0 && ev.taskId != 0
    requires ev.outcome == 1 || ev.outcome == 3
    ensures var l := r.states[n].l;
            var outcome := if ev.outcome == 1 then Succeeded else Dead;
            var result := if ev.result == "" then None else Some(ev.result);
            var at := if ev.finishedUnixMs > 0 then ev.finishedUnixMs else now;
            var tx := ConsumeTx(l, ev, nextId, now, readFails);
            if && ev.taskId in l.processings && l.processings[ev.taskId].attempts == ev.attempt
               && DerivationFits(Finish(l, ev.taskId, outcome, result, ev.error, at), nextId, ev.taskId, l.processings[ev.taskId], outcome)
            then tx.Ok? && EndedWith(l, tx.value, ev.taskId, outcome, result, ev.error, at) && OnlyTask(l, tx.value, ev.taskId, nextId)
            else tx.Err? && Commit(l, tx) == l
  {
    InvAt(r, n);
    var q := RequestOf(ev);
    TerminalValues(r.states[n].l, nextId, ev.taskId, Some(ev.attempt), q.outcome, q.result, q.error, q.completedAt.GetOr(now));
  }

  /** A result of task 0 is refused. */
  lemma NoTaskNoResult(l: Ledger, ev: ResultEvent, nextId: TaskId, now: Time, readFails: bool)
    requires ev.taskId == 0
    ensures ConsumeTx(l, ev, nextId, now, readFails).Err?
  {
  }
}
