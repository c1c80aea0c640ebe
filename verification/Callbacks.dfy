/** The task a terminal move derives: which one, when, and with which columns. */
module Callbacks {
  import opened Wrappers
  import opened Rows
  import opened LedgerTx
  import opened TaskView
  import opened Runs

  /** A chain of completed tasks, each naming the next as its parent. */
  ghost predicate Ancestry(completeds: map<TaskId, CompletedRow>, path: seq<TaskId>) {
    forall i :: 0 <= i < |path| - 1 ==> ParentOf(completeds, path[i], path[i + 1])
  }

  ghost predicate ParentOf(completeds: map<TaskId, CompletedRow>, child: TaskId, parent: TaskId) {
    child in completeds && completeds[child].parentTaskId == parent != 0
  }

  ghost predicate HasParent(completeds: map<TaskId, CompletedRow>, id: TaskId) {
    id in completeds && completeds[id].parentTaskId != 0
  }

  /** The walk counts the steps of a chain of ancestors, up to nine: it stops before only
      where the chain ends. */
  lemma {:induction false} WalkCounts(completeds: map<TaskId, CompletedRow>, cur: TaskId, depth: nat) returns (path: seq<TaskId>)
    requires depth <= 9
    ensures path != [] && path[0] == cur && Ancestry(completeds, path)
    ensures DepthFrom(completeds, cur, depth) == depth + |path| - 1 <= 9
    ensures depth + |path| - 1 < 9 ==> !HasParent(completeds, path[|path| - 1])
    decreases 9 - depth
  {
    if depth == 9 || !HasParent(completeds, cur) {
      path := [cur];
    } else {
      var rest := WalkCounts(completeds, completeds[cur].parentTaskId, depth + 1);
      path := [cur] + rest;
      forall i | 0 <= i < |path| - 1 ensures ParentOf(completeds, path[i], path[i + 1]) {
        if i > 0 { assert ParentOf(completeds, rest[i - 1], rest[i]); }
      }
    }
  }

  /** What the callback column asks for under an outcome. */
  ghost predicate Asks(proc: ProcessingRow, outcome: Outcome, t: CallbackTask) {
    && proc.callback.Encoded? && t.typ != ""
    && (if outcome == Succeeded then proc.callback.spec.onSuccess else proc.callback.spec.onError) == Some(t)
  }

  /** Two asks of one row are the same. */
  lemma AsksOnce(proc: ProcessingRow, outcome: Outcome, t: CallbackTask)
    ensures Asks(proc, outcome, t) <==> Wanted(proc, outcome) == Some(t)
  {
  }

  ghost function KeyFor(t: CallbackTask, parent: TaskId, attempts: int, outcome: Outcome): string {
    if t.idempotencyKey != "" then t.idempotencyKey else DefaultKey(parent, attempts, outcome)
  }

  /** The columns of the derived task: the specification's, with the documented defaults for
      what it leaves open. */
  ghost predicate ChildOf(p: PendingRow, t: CallbackTask, parent: TaskId, proc: ProcessingRow, key: string, at: Time) {
    && p.typ == t.typ && p.operator == t.operator && p.parentTaskId == parent && p.idempotencyKey == key
    && p.priority == (if t.priority <= 0 then 50 else if t.priority > 100 then 100 else t.priority)
    && p.channel == (if t.channel == "" then proc.channel else t.channel)
    && p.timeoutMs == (if t.timeoutMs <= 0 then 60000 else t.timeoutMs)
    && p.maxAttempts == (if t.maxAttempts <= 0 then 3 else t.maxAttempts)
    && p.callback == (if t.callback.None? then NoColumn else Encoded(t.callback.value))
    && p.vpc == t.vpc && p.node == t.node && p.nodeLabel == t.nodeLabel
    && -0x8000 <= p.hashBucket < 0x8000 && (p.hashBucket - t.hashBucket) % 0x1_0000 == 0
    && p.bizRaceLabels == t.bizRaceLabels && p.bizRaceEntry == t.bizRaceEntry
    && p.bizGroup == t.bizGroup && p.bizBatchId == t.bizBatchId
    && p.createdAt == at && p.updatedAt == at
  }

  lemma ChildColumns(t: CallbackTask, parent: TaskId, proc: ProcessingRow, key: string, at: Time)
    ensures ChildOf(DerivedPending(t, parent, proc, key, at), t, parent, proc, key, at)
  {
  }

  /** Derivation after the four terminal writes. */
  lemma DeriveValues(l: Ledger, nextId: TaskId, parent: TaskId, proc: ProcessingRow, outcome: Outcome, at: Time, t: CallbackTask)
    requires Inv(l) && proc.Accepted() && nextId != 0 && Asks(proc, outcome, t)
    ensures var tx := DeriveTx(l, nextId, parent, proc, outcome, at);
            var key := KeyFor(t, parent, proc.attempts, outcome);
            if DepthFrom(l.completeds, parent, 0) >= 8 || KeyTaken(l, key) then tx == Ok(l)
            else if nextId in l.identities || !(0 <= Int16(t.hashBucket) <= 255) then tx.Err?
            else && tx.Ok? && nextId in tx.value.pendings && ChildOf(tx.value.pendings[nextId], t, parent, proc, key, at)
                 && tx.value == l.(identities := l.identities[nextId := IdentityRow(key, at)],
                                   payloads := l.payloads[nextId := if t.payload == "" then "null" else t.payload],
                                   pendings := l.pendings[nextId := tx.value.pendings[nextId]])
  {
    AsksOnce(proc, outcome, t);
    DeriveStep(l, nextId, parent, proc, outcome, at);
    ChildColumns(t, parent, proc, KeyFor(t, parent, proc.attempts, outcome), at);
  }

  lemma DeriveNothing(l: Ledger, nextId: TaskId, parent: TaskId, proc: ProcessingRow, outcome: Outcome, at: Time)
    requires forall t :: !Asks(proc, outcome, t)
    ensures DeriveTx(l, nextId, parent, proc, outcome, at) == Ok(l)
  {
    var w := Wanted(proc, outcome);
    if w.Some? { AsksOnce(proc, outcome, w.value); }
  }

  /** A terminal move in any reachable state, on a row whose callback asks for a task: it
      creates exactly that task, unless eight ancestors or a taken key stop the derivation;
      it fails without effect if the new id is in use or the bucket does not fit. */
  lemma AskedIsCreated(r: Run, n: nat, nextId: TaskId, id: TaskId, fence: Option<int>, outcome: Outcome,
                       result: Option<Json>, error: string, at: Time, t: CallbackTask)
    requires IsRun(r) && n < |r.states| && nextId != 0 && Fenced(r.states[n].l, id, fence)
    requires Asks(r.states[n].l.processings[id], outcome, t)
    ensures var l := r.states[n].l;
            var proc := l.processings[id];
            var key := KeyFor(t, id, proc.attempts, outcome);
            var tx := TerminalTx(l, nextId, id, fence, outcome, result, error, at);
            var done := Finish(l, id, outcome, result, error, at);
            if DepthFrom(done.completeds, id, 0) >= 8 || KeyTaken(l, key) then tx == Ok(done)
            else if nextId in l.identities || !(0 <= Int16(t.hashBucket) <= 255) then tx.Err? && Commit(l, tx) == l
            else && tx.Ok? && View(tx.value, id).Ended? && nextId in tx.value.pendings
                 && ChildOf(tx.value.pendings[nextId], t, id, proc, key, at)
                 && tx.value.identities == l.identities[nextId := IdentityRow(key, at)]
                 && View(tx.value, nextId).TaskPayload() == Some(if t.payload == "" then "null" else t.payload)
  {
    var l := r.states[n].l;
    InvAt(r, n);
    FencedDerives(l, nextId, id, fence, outcome, result, error, at);
    FinishStep(l, id, outcome, result, error, at);
    DeriveValues(Finish(l, id, outcome, result, error, at), nextId, id, l.processings[id], outcome, at, t);
    TerminalStep(l, nextId, id, fence, outcome, result, error, at);
  }

  /** Where nothing is asked for, the move commits and no task is created. */
  lemma UnaskedIsNotCreated(r: Run, n: nat, nextId: TaskId, id: TaskId, fence: Option<int>, outcome: Outcome,
                            result: Option<Json>, error: string, at: Time)
    requires IsRun(r) && n < |r.states| && Fenced(r.states[n].l, id, fence)
    requires forall t :: !Asks(r.states[n].l.processings[id], outcome, t)
    ensures TerminalTx(r.states[n].l, nextId, id, fence, outcome, result, error, at)
            == Ok(Finish(r.states[n].l, id, outcome, result, error, at))
  {
    var l := r.states[n].l;
    InvAt(r, n);
    FencedDerives(l, nextId, id, fence, outcome, result, error, at);
    DeriveNothing(Finish(l, id, outcome, result, error, at), nextId, id, l.processings[id], outcome, at);
  }
}
