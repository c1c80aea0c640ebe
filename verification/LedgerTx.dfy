/** The seven tables as one value, and each Store operation as a transaction on it:
    the tables it commits, or the error that rolls everything back. */
module LedgerTx {
  import opened Wrappers
  import opened Rows

  datatype Ledger = Ledger(
    identities: map<TaskId, IdentityRow>,
    payloads: map<TaskId, Json>,
    pendings: map<TaskId, PendingRow>,
    schedulables: map<TaskId, SchedulableRow>,
    processings: map<TaskId, ProcessingRow>,
    completeds: map<TaskId, CompletedRow>,
    results: map<TaskId, ResultRow>)

  const EMPTY := Ledger(map[], map[], map[], map[], map[], map[], map[])

  /** StaleAttempt and DuplicateResult are the two sentinels a terminal move turns
      into "rejected"; Constraint is any violated primary key, unique key or CHECK. */
  datatype DbError = StaleAttempt | DuplicateResult | Constraint

  type Tx<T> = Result<T, DbError>

  /** The tables after the transaction: a failed one leaves them as they were. */
  function Commit(l: Ledger, tx: Tx<Ledger>): Ledger {
    match tx
    case Ok(l') => l'
    case Err(_) => l
  }

  // ----- identities -----

  predicate KeyTaken(l: Ledger, key: string) {
    exists id :: id in l.identities && l.identities[id].key == key
  }

  /** The UNIQUE constraint on idempotency_key. */
  ghost predicate UniqueKeys(l: Ledger) {
    forall i, j :: i in l.identities && j in l.identities && l.identities[i].key == l.identities[j].key ==> i == j
  }

  ghost function KeyOwner(l: Ledger, key: string): (id: TaskId)
    requires KeyTaken(l, key)
    ensures id in l.identities && l.identities[id].key == key
  {
    var id :| id in l.identities && l.identities[id].key == key;
    id
  }

  function WithIdentity(l: Ledger, id: TaskId, key: string, at: Time): Ledger {
    l.(identities := l.identities[id := IdentityRow(key, at)])
  }

  // ----- creation -----

  /** Payload, then pending row: the two inserts shared by Enqueue and derivation. */
  function CreateRows(l: Ledger, id: TaskId, payload: Json, row: PendingRow): Tx<Ledger> {
    if id in l.payloads || id in l.pendings || !row.Accepted() then Err(Constraint)
    else Ok(l.(payloads := l.payloads[id := StoredPayload(payload)], pendings := l.pendings[id := row]))
  }

  ghost function EnqueueTx(l: Ledger, req: EnqueueRequest, now: Time): Tx<(Ledger, EnqueueResult)> {
    var createdAt := req.createdAt.GetOr(now);
    var row := NewPending(req, createdAt, req.updatedAt.GetOr(createdAt));
    if req.idempotencyKey != "" && KeyTaken(l, req.idempotencyKey) then
      Ok((l, EnqueueResult(KeyOwner(l, req.idempotencyKey), false)))
    else if req.idempotencyKey != "" && req.taskId in l.identities then
      Err(Constraint)
    else
      var l1 := if req.idempotencyKey == "" then l
                else WithIdentity(l, req.taskId, req.idempotencyKey, createdAt);
      match CreateRows(l1, req.taskId, req.payload, row)
      case Ok(l2) => Ok((l2, EnqueueResult(req.taskId, true)))
      case Err(e) => Err(e)
  }

  // ----- moves of many rows -----

  function PromotedRows(l: Ledger, ids: set<TaskId>): map<TaskId, SchedulableRow>
    requires ids <= l.pendings.Keys
  {
    map id | id in ids :: Promoted(l.pendings[id])
  }

  function ClaimedRows(l: Ledger, ids: set<TaskId>, now: Time): map<TaskId, ProcessingRow>
    requires ids <= l.schedulables.Keys
  {
    map id | id in ids :: ClaimedRow(l.schedulables[id], now)
  }

  function ReturnedRows(l: Ledger, ids: set<TaskId>): map<TaskId, SchedulableRow>
    requires ids <= l.processings.Keys
  {
    map id | id in ids :: Returned(l.processings[id])
  }

  function PromoteTx(l: Ledger, ids: set<TaskId>): Tx<Ledger>
    requires ids <= l.pendings.Keys
  {
    var rows := PromotedRows(l, ids);
    if exists id :: id in rows && (id in l.schedulables || !rows[id].Accepted()) then Err(Constraint)
    else Ok(l.(schedulables := l.schedulables + rows, pendings := l.pendings - ids))
  }

  function ClaimTx(l: Ledger, ids: set<TaskId>, now: Time): Tx<Ledger>
    requires ids <= l.schedulables.Keys
  {
    var rows := ClaimedRows(l, ids, now);
    if exists id :: id in rows && (id in l.processings || !rows[id].Accepted()) then Err(Constraint)
    else Ok(l.(processings := l.processings + rows, schedulables := l.schedulables - ids))
  }

  /** R1 reset of many rows; Requeue is the same move of one row. */
  function ReturnTx(l: Ledger, ids: set<TaskId>): Tx<Ledger>
    requires ids <= l.processings.Keys
  {
    var rows := ReturnedRows(l, ids);
    if exists id :: id in rows && (id in l.schedulables || !rows[id].Accepted()) then Err(Constraint)
    else Ok(l.(schedulables := l.schedulables + rows, processings := l.processings - ids))
  }

  /** A missing row is no error: nothing moves. */
  function RequeueTx(l: Ledger, id: TaskId): Tx<Ledger> {
    if id in l.processings then ReturnTx(l, {id}) else Ok(l)
  }

  // ----- the terminal move -----

  /** Ancestors of `cur` found in the completed table, cut off one past the limit; see
      Callbacks.WalkCounts. */
  function DepthFrom(completeds: map<TaskId, CompletedRow>, cur: TaskId, depth: nat): nat
    decreases MAX_CALLBACK_DEPTH + 1 - depth
  {
    if depth > MAX_CALLBACK_DEPTH || cur !in completeds || completeds[cur].parentTaskId == 0 then depth
    else DepthFrom(completeds, completeds[cur].parentTaskId, depth + 1)
  }

  /** The task a finished row asks for, if any. */
  function Wanted(proc: ProcessingRow, outcome: Outcome): Option<CallbackTask> {
    match UnmarshalCallback(proc.callback)
    case None => None
    case Some(spec) =>
      match spec.Derive(outcome == Succeeded)
      case None => None
      case Some(t) => if t.typ == "" then None else Some(t)
  }

  function DeriveTx(l: Ledger, nextId: TaskId, parent: TaskId, proc: ProcessingRow, outcome: Outcome, at: Time): Tx<Ledger> {
    match Wanted(proc, outcome)
    case None => Ok(l)
    case Some(t) =>
      var key := DerivedKey(t, parent, proc.attempts, outcome);
      if DepthFrom(l.completeds, parent, 0) >= MAX_CALLBACK_DEPTH || KeyTaken(l, key) then Ok(l)
      else if nextId in l.identities then Err(Constraint)
      else CreateRows(WithIdentity(l, nextId, key, at), nextId, t.payload, DerivedPending(t, parent, proc, key, at))
  }

  function NonEmpty(p: Option<Json>): Option<Json> {
    if p == Some("") then None else p
  }

  function PayloadOf(l: Ledger, id: TaskId): Option<Json> {
    if id in l.payloads then Some(l.payloads[id]) else None
  }

  /** The four writes of a terminal move, from the row and payload read before. */
  function FinishRead(l: Ledger, id: TaskId, proc: ProcessingRow, payload: Option<Json>,
                      outcome: Outcome, result: Option<Json>, error: string, at: Time): Ledger
  {
    l.(completeds := l.completeds[id := Completed(proc, outcome, error, at)],
       results := l.results[id := ResultRow(outcome, proc.attempts, NonEmpty(payload), NonEmpty(result), error, at)],
       payloads := l.payloads - {id},
       processings := l.processings - {id})
  }

  /** ... from the row and payload that are there. */
  function Finish(l: Ledger, id: TaskId, outcome: Outcome, result: Option<Json>, error: string, at: Time): Ledger
    requires id in l.processings
  {
    FinishRead(l, id, l.processings[id], PayloadOf(l, id), outcome, result, error, at)
  }

  /** `fence` is the attempt a result carries; a dead letter carries none. */
  function TerminalTx(l: Ledger, nextId: TaskId, id: TaskId, fence: Option<int>, outcome: Outcome,
                      result: Option<Json>, error: string, at: Time): Tx<Ledger>
  {
    if id !in l.processings || (fence.Some? && l.processings[id].attempts != fence.value) then Err(StaleAttempt)
    else if id in l.completeds || !Completed(l.processings[id], outcome, error, at).Accepted() then Err(Constraint)
    else if id in l.results then Err(DuplicateResult)
    else DeriveTx(Finish(l, id, outcome, result, error, at), nextId, id, l.processings[id], outcome, at)
  }

  function CompleteTx(l: Ledger, nextId: TaskId, req: CompleteRequest, now: Time): Tx<Ledger> {
    TerminalTx(l, nextId, req.taskId, Some(req.attempt), req.outcome, req.result, req.error, req.completedAt.GetOr(now))
  }

  function DeadLetterTx(l: Ledger, nextId: TaskId, id: TaskId, now: Time): Tx<Ledger> {
    TerminalTx(l, nextId, id, None, Dead, None, "", now)
  }

  /** The sentinels become "rejected, no side effect"; other errors are passed on. */
  function TerminalOutcome(tx: Tx<Ledger>): Tx<bool> {
    match tx
    case Ok(_) => Ok(true)
    case Err(Constraint) => Err(Constraint)
    case Err(_) => Ok(false)
  }
}
