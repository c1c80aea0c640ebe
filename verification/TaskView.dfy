/** One task's slice of the seven tables, the per-task automaton, and the proof that
    every transaction keeps the tables consistent and moves each task by one edge of it. */
module TaskView {
  import opened Wrappers
  import opened Rows
  import opened LedgerTx

  // ----- the invariant of the tables -----

  ghost predicate Stage1(l: Ledger, id: TaskId) {
    && (id in l.pendings ==> id !in l.schedulables && id !in l.processings && id !in l.completeds)
    && (id in l.schedulables ==> id !in l.processings && id !in l.completeds)
    && (id in l.processings ==> id !in l.completeds)
  }

  ghost predicate InFlight(l: Ledger, id: TaskId) {
    id in l.pendings || id in l.schedulables || id in l.processings
  }

  ghost predicate RowsOk(l: Ledger, id: TaskId) {
    && (id in l.pendings ==> l.pendings[id].Accepted())
    && (id in l.schedulables ==> l.schedulables[id].Accepted() && l.schedulables[id].attempts >= 0)
    && (id in l.processings ==> l.processings[id].Accepted() && l.processings[id].attempts >= 1)
    && (id in l.completeds ==> l.completeds[id].Accepted() && l.completeds[id].attempts >= 1)
    && (id in l.completeds && id in l.results ==>
          l.results[id].attempt == l.completeds[id].attempts && l.results[id].outcome == l.completeds[id].outcome)
    && (id in l.payloads ==> l.payloads[id] != "")
  }

  /** One stage per task, and the side tables follow the stage. */
  ghost predicate IdOk(l: Ledger, id: TaskId) {
    && Stage1(l, id)
    && (id in l.identities <==> InFlight(l, id) || id in l.completeds)
    && (id in l.payloads <==> InFlight(l, id))
    && (id in l.results <==> id in l.completeds)
    && RowsOk(l, id)
    && (id in l.identities ==> id != 0)
  }

  ghost predicate Inv(l: Ledger) {
    UniqueKeys(l) && forall id :: IdOk(l, id)
  }

  // ----- the per-task automaton -----

  datatype TaskView =
    | Unknown
    | Pending(pending: PendingRow, payload: Option<Json>)
    | Schedulable(sched: SchedulableRow, payload: Option<Json>)
    | Processing(proc: ProcessingRow, payload: Option<Json>)
    | Ended(completed: CompletedRow, result: ResultRow)
  {
    function Attempts(): int {
      match this
      case Schedulable(s, _) => s.attempts
      case Processing(p, _) => p.attempts
      case Ended(c, _) => c.attempts
      case _ => 0
    }

    /** Number of ledger moves the task has made since it was created; -1 before. */
    function Phase(): int {
      match this
      case Unknown => -1
      case Pending(_, _) => 0
      case Schedulable(s, _) => 2 * s.attempts + 1
      case Processing(p, _) => 2 * p.attempts
      case Ended(c, _) => 2 * c.attempts + 1
    }

    /** The columns that are neither public nor counted. */
    function Bucket(): int {
      match this
      case Pending(p, _) => p.hashBucket
      case Schedulable(s, _) => s.hashBucket
      case Processing(p, _) => p.hashBucket
      case _ => 0
    }

    function ClaimedNode(): string {
      match this
      case Schedulable(s, _) => s.claimedNode
      case Processing(p, _) => p.claimedNode
      case Ended(c, _) => c.claimedNode
      case _ => ""
    }

    function UpdatedAt(): Time {
      match this
      case Unknown => 0
      case Pending(p, _) => p.updatedAt
      case Schedulable(s, _) => s.updatedAt
      case Processing(p, _) => p.updatedAt
      case Ended(c, _) => c.updatedAt
    }

    function Public(): Option<PublicColumns> {
      match this
      case Unknown => None
      case Pending(p, _) => Some(p.Public())
      case Schedulable(s, _) => Some(s.Public())
      case Processing(p, _) => Some(p.Public())
      case Ended(c, _) => Some(c.Public())
    }

    /** The payload the task was created with: its own row while in flight, merged
        into the result afterwards. */
    function TaskPayload(): Option<Json> {
      match this
      case Unknown => None
      case Pending(_, p) => p
      case Schedulable(_, p) => p
      case Processing(_, p) => p
      case Ended(_, r) => r.payload
    }
  }

  ghost function View(l: Ledger, id: TaskId): TaskView {
    if id in l.pendings then Pending(l.pendings[id], PayloadOf(l, id))
    else if id in l.schedulables then Schedulable(l.schedulables[id], PayloadOf(l, id))
    else if id in l.processings then Processing(l.processings[id], PayloadOf(l, id))
    else if id in l.completeds && id in l.results then Ended(l.completeds[id], l.results[id])
    else Unknown
  }

  ghost predicate Creates(v: TaskView, v': TaskView) { v.Unknown? && v'.Pending? }

  ghost predicate Promotes(v: TaskView, v': TaskView) {
    v.Pending? && v' == Schedulable(Promoted(v.pending), v.payload)
  }

  ghost predicate Claims(v: TaskView, v': TaskView) {
    v.Schedulable? && v'.Processing? && v' == Processing(ClaimedRow(v.sched, v'.proc.updatedAt), v.payload)
  }

  ghost predicate Returns(v: TaskView, v': TaskView) {
    v.Processing? && v' == Schedulable(Returned(v.proc), v.payload)
  }

  ghost predicate Ends(v: TaskView, v': TaskView) {
    && v.Processing? && v'.Ended?
    && v'.completed == Completed(v.proc, v'.completed.outcome, v'.completed.error, v'.completed.completedAt)
    && v'.result == ResultRow(v'.completed.outcome, v.proc.attempts, v.payload, v'.result.result,
                              v'.completed.error, v'.completed.completedAt)
  }

  ghost predicate Edge(v: TaskView, v': TaskView) {
    Creates(v, v') || Promotes(v, v') || Claims(v, v') || Returns(v, v') || Ends(v, v')
  }

  ghost predicate EdgeOrStay(v: TaskView, v': TaskView) { v == v' || Edge(v, v') }

  /** What one transaction may do to the tables. */
  ghost predicate Moves(l: Ledger, l': Ledger) {
    forall id :: EdgeOrStay(View(l, id), View(l', id))
  }

  lemma EdgeRaisesPhase(v: TaskView, v': TaskView)
    requires Edge(v, v')
    ensures v'.Phase() == v.Phase() + 1
    ensures v.Attempts() <= v'.Attempts() <= v.Attempts() + 1
    ensures !v.Unknown? ==> v'.Public() == v.Public() && v'.TaskPayload() == v.TaskPayload()
    ensures !v.Unknown? && !v'.Ended? ==> v'.Bucket() == v.Bucket()
    ensures v'.ClaimedNode() == v.ClaimedNode()
    ensures !v.Unknown? && !Claims(v, v') ==> v'.UpdatedAt() == v.UpdatedAt()
    ensures !v.Ended?
  {
  }

  /** What an earlier view of a task still says about a later one: attempts and phases
      never fall, public columns and payload never change, an ended task is final. */
  ghost predicate Later(v: TaskView, w: TaskView) {
    && v.Phase() <= w.Phase() && v.Attempts() <= w.Attempts()
    && (!v.Unknown? ==> w.Public() == v.Public() && w.TaskPayload() == v.TaskPayload())
    && (v.Ended? || v.Phase() == w.Phase() ==> w == v)
  }

  lemma LaterByEdge(u: TaskView, v: TaskView, w: TaskView)
    requires Later(u, v) && EdgeOrStay(v, w)
    ensures Later(u, w)
  {
    if v != w { EdgeRaisesPhase(v, w); }
  }

  // ----- each transaction -----

  lemma CreateRowsStep(l: Ledger, id: TaskId, key: string, at: Time, payload: Json, row: PendingRow)
    requires Inv(l) && id !in l.identities && !KeyTaken(l, key) && id != 0
    ensures var tx := CreateRows(WithIdentity(l, id, key, at), id, payload, row);
            && (tx.Ok? <==> row.Accepted())
            && (tx.Ok? ==> Inv(tx.value) && Moves(l, tx.value)
                           && View(tx.value, id) == Pending(row, Some(StoredPayload(payload)))
                           && forall j :: j != id ==> View(tx.value, j) == View(l, j))
  {
    assert IdOk(l, id);
    var tx := CreateRows(WithIdentity(l, id, key, at), id, payload, row);
    if tx.Ok? {
      var l' := tx.value;
      forall j ensures IdOk(l', j) && (j != id ==> View(l', j) == View(l, j)) { assert IdOk(l, j); }
    }
  }

  lemma EnqueueStep(l: Ledger, req: EnqueueRequest, now: Time)
    requires Inv(l) && req.idempotencyKey != "" && req.taskId != 0
    ensures var tx := EnqueueTx(l, req, now);
            tx.Ok? ==> Inv(tx.value.0) && Moves(l, tx.value.0)
  {
    var createdAt := req.createdAt.GetOr(now);
    if !KeyTaken(l, req.idempotencyKey) && req.taskId !in l.identities {
      CreateRowsStep(l, req.taskId, req.idempotencyKey, createdAt, req.payload,
                     NewPending(req, createdAt, req.updatedAt.GetOr(createdAt)));
    }
  }

  lemma PromoteStep(l: Ledger, ids: set<TaskId>)
    requires Inv(l) && ids <= l.pendings.Keys
    ensures var tx := PromoteTx(l, ids);
            && tx.Ok? && Inv(tx.value) && Moves(l, tx.value)
            && forall id :: if id in ids then Promotes(View(l, id), View(tx.value, id)) else View(tx.value, id) == View(l, id)
  {
    forall id | id in ids ensures id !in l.schedulables && l.pendings[id].Accepted() { assert IdOk(l, id); }
    var l' := PromoteTx(l, ids).value;
    forall id ensures IdOk(l', id)
                      && if id in ids then Promotes(View(l, id), View(l', id)) else View(l', id) == View(l, id)
    { assert IdOk(l, id); }
  }

  lemma ClaimStep(l: Ledger, ids: set<TaskId>, now: Time)
    requires Inv(l) && ids <= l.schedulables.Keys
    ensures var tx := ClaimTx(l, ids, now);
            && tx.Ok? && Inv(tx.value) && Moves(l, tx.value)
            && (forall id :: if id in ids then Claims(View(l, id), View(tx.value, id)) else View(tx.value, id) == View(l, id))
            && forall id :: id in ids ==> View(tx.value, id).proc.updatedAt == now
  {
    forall id | id in ids ensures id !in l.processings && l.schedulables[id].Accepted() { assert IdOk(l, id); }
    var l' := ClaimTx(l, ids, now).value;
    forall id ensures IdOk(l', id)
                      && if id in ids then Claims(View(l, id), View(l', id)) else View(l', id) == View(l, id)
    { assert IdOk(l, id); }
  }

  lemma ReturnStep(l: Ledger, ids: set<TaskId>)
    requires Inv(l) && ids <= l.processings.Keys
    ensures var tx := ReturnTx(l, ids);
            && tx.Ok? && Inv(tx.value) && Moves(l, tx.value)
            && forall id :: if id in ids then Returns(View(l, id), View(tx.value, id)) else View(tx.value, id) == View(l, id)
  {
    forall id | id in ids ensures id !in l.schedulables && l.processings[id].Accepted() { assert IdOk(l, id); }
    var l' := ReturnTx(l, ids).value;
    forall id ensures IdOk(l', id)
                      && if id in ids then Returns(View(l, id), View(l', id)) else View(l', id) == View(l, id)
    { assert IdOk(l, id); }
  }

  lemma FinishStep(l: Ledger, id: TaskId, outcome: Outcome, result: Option<Json>, error: string, at: Time)
    requires Inv(l) && id in l.processings
    ensures var l' := Finish(l, id, outcome, result, error, at);
            && Inv(l') && Ends(View(l, id), View(l', id)) && l'.completeds[id].outcome == outcome
            && l'.completeds[id].error == error && l'.completeds[id].completedAt == at
            && l'.results[id].result == NonEmpty(result)
            && forall j :: j != id ==> View(l', j) == View(l, j)
  {
    var l' := Finish(l, id, outcome, result, error, at);
    forall j ensures IdOk(l', j) && (j != id ==> View(l', j) == View(l, j)) { assert IdOk(l, j); }
    assert IdOk(l, id);
  }

  /** Whether the callback of a finished row can be created, spelled out. */
  ghost predicate DerivationFits(l: Ledger, nextId: TaskId, parent: TaskId, proc: ProcessingRow, outcome: Outcome) {
    match Wanted(proc, outcome)
    case None => true
    case Some(t) =>
      || DepthFrom(l.completeds, parent, 0) >= MAX_CALLBACK_DEPTH
      || KeyTaken(l, DerivedKey(t, parent, proc.attempts, outcome))
      || (nextId !in l.identities && BucketInRange(Int16(t.hashBucket)))
  }

  /** Nothing, or one new pending task that names its parent. */
  ghost predicate Derives(l: Ledger, l': Ledger, nextId: TaskId, parent: TaskId) {
    l' == l ||
    (&& View(l, nextId).Unknown? && View(l', nextId).Pending?
     && View(l', nextId).pending.parentTaskId == parent
     && (forall j :: j != nextId ==> View(l', j) == View(l, j))
     && l'.identities.Keys == l.identities.Keys + {nextId}
     && l'.completeds == l.completeds
     && DepthFrom(l.completeds, parent, 0) < MAX_CALLBACK_DEPTH)
  }

  lemma DeriveStep(l: Ledger, nextId: TaskId, parent: TaskId, proc: ProcessingRow, outcome: Outcome, at: Time)
    requires Inv(l) && proc.Accepted() && nextId != 0
    ensures var tx := DeriveTx(l, nextId, parent, proc, outcome, at);
            && (tx.Ok? <==> DerivationFits(l, nextId, parent, proc, outcome))
            && (tx.Ok? ==> Inv(tx.value) && Derives(l, tx.value, nextId, parent))
            && (tx.Err? ==> tx.error == Constraint)
  {
    match Wanted(proc, outcome)
    case None =>
    case Some(t) =>
      var key := DerivedKey(t, parent, proc.attempts, outcome);
      if !KeyTaken(l, key) && nextId !in l.identities {
        assert IdOk(l, nextId);
        CreateRowsStep(l, nextId, key, at, t.payload, DerivedPending(t, parent, proc, key, at));
      }
  }

  ghost predicate Fenced(l: Ledger, id: TaskId, fence: Option<int>) {
    id in l.processings && (fence.None? || l.processings[id].attempts == fence.value)
  }

  /** A terminal move: the task ends with this outcome, then the callback is derived. */
  ghost predicate EndsTask(l: Ledger, l': Ledger, nextId: TaskId, id: TaskId, outcome: Outcome) {
    exists l1 :: EndsOnly(l, l1, id, outcome) && Derives(l1, l', nextId, id)
  }

  ghost predicate EndsOnly(l: Ledger, l1: Ledger, id: TaskId, outcome: Outcome) {
    && Ends(View(l, id), View(l1, id)) && View(l1, id).completed.outcome == outcome
    && (forall j :: j != id ==> View(l1, j) == View(l, j))
    && l1.identities == l.identities
    && id in l1.completeds && l1.completeds == l.completeds[id := l1.completeds[id]]
  }

  /** Under the fence only the derivation can fail. */
  lemma FencedDerives(l: Ledger, nextId: TaskId, id: TaskId, fence: Option<int>, outcome: Outcome,
                      result: Option<Json>, error: string, at: Time)
    requires Inv(l) && Fenced(l, id, fence)
    ensures TerminalTx(l, nextId, id, fence, outcome, result, error, at)
            == DeriveTx(Finish(l, id, outcome, result, error, at), nextId, id, l.processings[id], outcome, at)
    ensures l.processings[id].Accepted()
  {
    assert IdOk(l, id);
  }

  /** A terminal move commits exactly when the row is in flight under the fence and its
      callback can be created; the duplicate-result branch is dead. */
  lemma TerminalStep(l: Ledger, nextId: TaskId, id: TaskId, fence: Option<int>, outcome: Outcome,
                     result: Option<Json>, error: string, at: Time)
    requires Inv(l) && nextId != 0
    ensures var tx := TerminalTx(l, nextId, id, fence, outcome, result, error, at);
            && (tx.Ok? <==> Fenced(l, id, fence)
                            && DerivationFits(Finish(l, id, outcome, result, error, at), nextId, id, l.processings[id], outcome))
            && (tx == Err(StaleAttempt) <==> !Fenced(l, id, fence))
            && tx != Err(DuplicateResult)
            && (tx.Ok? ==> Inv(tx.value) && EndsTask(l, tx.value, nextId, id, outcome)
                           && View(tx.value, id) == View(Finish(l, id, outcome, result, error, at), id))
  {
    if Fenced(l, id, fence) {
      var l1 := Finish(l, id, outcome, result, error, at);
      FencedDerives(l, nextId, id, fence, outcome, result, error, at);
      FinishStep(l, id, outcome, result, error, at);
      DeriveStep(l1, nextId, id, l.processings[id], outcome, at);
      assert EndsOnly(l, l1, id, outcome);
    }
  }

  lemma EndsTaskMoves(l: Ledger, l': Ledger, nextId: TaskId, id: TaskId, outcome: Outcome)
    requires EndsTask(l, l', nextId, id, outcome)
    ensures Moves(l, l') && Ends(View(l, id), View(l', id)) && View(l', id).completed.outcome == outcome
    ensures forall j :: j != id && View(l', j) != View(l, j) ==> j == nextId && Creates(View(l, j), View(l', j))
  {
    var l1 :| EndsOnly(l, l1, id, outcome) && Derives(l1, l', nextId, id);
    assert View(l1, id).Ended?;
    forall j ensures EdgeOrStay(View(l, j), View(l', j)) {
      if j == id { assert View(l', id) == View(l1, id); }
    }
  }
}
