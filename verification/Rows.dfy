/** The rows of the task ledger and the column-by-column copies a move makes.
    The four stage tables share their public columns; `Public()` gathers the ones
    no move may change. */
module Rows {
  import opened Wrappers

  type TaskId = int
  type Time = int
  type Json = string

  const MIN_PRIORITY := 0
  const MAX_PRIORITY := 100
  const DEFAULT_PRIORITY := 50
  const MAX_BUCKET := 255
  const DERIVED_TIMEOUT_MS := 60000
  const DERIVED_MAX_ATTEMPTS := 3
  const MAX_CALLBACK_DEPTH := 8

  datatype Outcome = Unset | Succeeded | Failed | Dead {
    /** The stored code of the closed enumeration. */
    function Code(): nat {
      match this
      case Unset => 0
      case Succeeded => 1
      case Failed => 2
      case Dead => 3
    }
  }

  // ----- callbacks -----

  /** What to create when a task ends. */
  datatype CallbackSpec = CallbackSpec(onSuccess: Option<CallbackTask>, onError: Option<CallbackTask>) {
    function Derive(succeeded: bool): Option<CallbackTask> {
      if succeeded then onSuccess else onError
    }
  }

  datatype CallbackTask = CallbackTask(
    typ: string, operator: string, priority: int, channel: string,
    vpc: string, node: string, nodeLabel: string, hashBucket: int,
    timeoutMs: int, maxAttempts: int, idempotencyKey: string, payload: Json,
    callback: Option<CallbackSpec>,
    bizRaceLabels: seq<string>, bizRaceEntry: string, bizGroup: string, bizBatchId: string)

  /** The callback column: NULL, the JSON literal null, bytes that do not decode
      into a spec, or an encoded spec. */
  datatype CallbackColumn = NoColumn | JsonNull | Malformed(raw: string) | Encoded(spec: CallbackSpec)

  /** None also covers the decoding error: both make the caller derive nothing. */
  function UnmarshalCallback(c: CallbackColumn): Option<CallbackSpec> {
    match c
    case Encoded(spec) =>
      if spec.onSuccess.None? && spec.onError.None? then None else Some(spec)
    case _ => None
  }

  function MarshalCallback(spec: Option<CallbackSpec>): CallbackColumn {
    match spec
    case None => NoColumn
    case Some(s) => Encoded(s)
  }

  // ----- rows -----

  /** The columns a task keeps from its creation to its terminal row. */
  datatype PublicColumns = PublicColumns(
    typ: string, operator: string, priority: int, channel: string, timeoutMs: int, maxAttempts: int,
    idempotencyKey: string, callback: CallbackColumn, parentTaskId: TaskId,
    vpc: string, node: string, nodeLabel: string,
    bizRaceLabels: seq<string>, bizRaceEntry: string, bizGroup: string, bizBatchId: string,
    createdAt: Time)

  predicate BucketInRange(bucket: int) { 0 <= bucket <= MAX_BUCKET }

  /** The CHECK on priority and the non-empty channel every stage table demands. */
  predicate ColumnsAccepted(priority: int, channel: string) {
    MIN_PRIORITY <= priority <= MAX_PRIORITY && channel != ""
  }

  datatype IdentityRow = IdentityRow(key: string, createdAt: Time)

  datatype PendingRow = PendingRow(
    typ: string, operator: string, priority: int, channel: string, timeoutMs: int, maxAttempts: int,
    idempotencyKey: string, callback: CallbackColumn, parentTaskId: TaskId,
    vpc: string, node: string, nodeLabel: string, hashBucket: int,
    bizRaceLabels: seq<string>, bizRaceEntry: string, bizGroup: string, bizBatchId: string,
    createdAt: Time, updatedAt: Time)
  {
    function Public(): PublicColumns {
      PublicColumns(typ, operator, priority, channel, timeoutMs, maxAttempts, idempotencyKey, callback,
                    parentTaskId, vpc, node, nodeLabel, bizRaceLabels, bizRaceEntry, bizGroup, bizBatchId, createdAt)
    }
    predicate Accepted() { ColumnsAccepted(priority, channel) && BucketInRange(hashBucket) }
  }

  datatype SchedulableRow = SchedulableRow(
    typ: string, operator: string, priority: int, channel: string, timeoutMs: int, maxAttempts: int,
    attempts: int, claimedNode: string,
    idempotencyKey: string, callback: CallbackColumn, parentTaskId: TaskId,
    vpc: string, node: string, nodeLabel: string, hashBucket: int,
    bizRaceLabels: seq<string>, bizRaceEntry: string, bizGroup: string, bizBatchId: string,
    createdAt: Time, updatedAt: Time)
  {
    function Public(): PublicColumns {
      PublicColumns(typ, operator, priority, channel, timeoutMs, maxAttempts, idempotencyKey, callback,
                    parentTaskId, vpc, node, nodeLabel, bizRaceLabels, bizRaceEntry, bizGroup, bizBatchId, createdAt)
    }
    predicate Accepted() { ColumnsAccepted(priority, channel) && BucketInRange(hashBucket) }
  }

  datatype ProcessingRow = ProcessingRow(
    typ: string, operator: string, priority: int, channel: string, timeoutMs: int, maxAttempts: int,
    attempts: int, claimedNode: string,
    idempotencyKey: string, callback: CallbackColumn, parentTaskId: TaskId,
    vpc: string, node: string, nodeLabel: string, hashBucket: int,
    bizRaceLabels: seq<string>, bizRaceEntry: string, bizGroup: string, bizBatchId: string,
    createdAt: Time, updatedAt: Time)
  {
    function Public(): PublicColumns {
      PublicColumns(typ, operator, priority, channel, timeoutMs, maxAttempts, idempotencyKey, callback,
                    parentTaskId, vpc, node, nodeLabel, bizRaceLabels, bizRaceEntry, bizGroup, bizBatchId, createdAt)
    }
    predicate Accepted() { ColumnsAccepted(priority, channel) && BucketInRange(hashBucket) }
  }

  /** A terminal row no longer carries the hash bucket. */
  datatype CompletedRow = CompletedRow(
    typ: string, operator: string, priority: int, channel: string, timeoutMs: int, maxAttempts: int,
    attempts: int, claimedNode: string, error: string,
    idempotencyKey: string, callback: CallbackColumn, parentTaskId: TaskId,
    vpc: string, node: string, nodeLabel: string,
    bizRaceLabels: seq<string>, bizRaceEntry: string, bizGroup: string, bizBatchId: string,
    createdAt: Time, updatedAt: Time, outcome: Outcome, completedAt: Time)
  {
    function Public(): PublicColumns {
      PublicColumns(typ, operator, priority, channel, timeoutMs, maxAttempts, idempotencyKey, callback,
                    parentTaskId, vpc, node, nodeLabel, bizRaceLabels, bizRaceEntry, bizGroup, bizBatchId, createdAt)
    }
    predicate Accepted() { ColumnsAccepted(priority, channel) }
  }

  datatype ResultRow = ResultRow(
    outcome: Outcome, attempt: int, payload: Option<Json>, result: Option<Json>,
    error: string, completedAt: Time)

  /** A row handed to a scheduler by a claim, and what GetProcessing returns. */
  datatype Claimed = Claimed(taskId: TaskId, row: ProcessingRow)

  /** A claim older than the window. */
  predicate Due(p: ProcessingRow, window: Time, now: Time) { p.updatedAt < now - window }

  /** The deadline the column comments promise: no task is taken away within its timeout. */
  predicate DueAsDocumented(p: ProcessingRow, grace: Time, skew: Time, now: Time) {
    Due(p, (if p.timeoutMs > grace then p.timeoutMs else grace) + skew, now)
  }

  // ----- requests -----

  datatype EnqueueRequest = EnqueueRequest(
    taskId: TaskId, typ: string, operator: string, priority: int, channel: string,
    timeoutMs: int, maxAttempts: int, idempotencyKey: string, callback: CallbackColumn,
    parentTaskId: TaskId, vpc: string, node: string, nodeLabel: string, hashBucket: int,
    bizRaceLabels: seq<string>, bizRaceEntry: string, bizGroup: string, bizBatchId: string,
    payload: Json, createdAt: Option<Time>, updatedAt: Option<Time>)

  datatype EnqueueResult = EnqueueResult(taskId: TaskId, created: bool)

  datatype CompleteRequest = CompleteRequest(
    taskId: TaskId, attempt: int, outcome: Outcome, result: Option<Json>, error: string,
    completedAt: Option<Time>)

  // ----- the copies -----

  function NewPending(req: EnqueueRequest, createdAt: Time, updatedAt: Time): (p: PendingRow) {
    PendingRow(req.typ, req.operator, req.priority, req.channel, req.timeoutMs, req.maxAttempts,
               req.idempotencyKey, req.callback, req.parentTaskId, req.vpc, req.node, req.nodeLabel,
               req.hashBucket, req.bizRaceLabels, req.bizRaceEntry, req.bizGroup, req.bizBatchId,
               createdAt, updatedAt)
  }

  /** The request a pending row and its payload answer. */
  function Requested(id: TaskId, p: PendingRow, payload: Json): EnqueueRequest {
    EnqueueRequest(id, p.typ, p.operator, p.priority, p.channel, p.timeoutMs, p.maxAttempts, p.idempotencyKey,
                   p.callback, p.parentTaskId, p.vpc, p.node, p.nodeLabel, p.hashBucket,
                   p.bizRaceLabels, p.bizRaceEntry, p.bizGroup, p.bizBatchId,
                   payload, Some(p.createdAt), Some(p.updatedAt))
  }

  /** Promotion: public columns kept, attempts and claiming node start empty. */
  function Promoted(p: PendingRow): (s: SchedulableRow)
  {
    SchedulableRow(p.typ, p.operator, p.priority, p.channel, p.timeoutMs, p.maxAttempts, 0, "",
                   p.idempotencyKey, p.callback, p.parentTaskId, p.vpc, p.node, p.nodeLabel, p.hashBucket,
                   p.bizRaceLabels, p.bizRaceEntry, p.bizGroup, p.bizBatchId, p.createdAt, p.updatedAt)
  }

  /** Claim: the only copy that raises attempts and the only one that restamps updated_at. */
  function ClaimedRow(s: SchedulableRow, now: Time): (p: ProcessingRow)
  {
    ProcessingRow(s.typ, s.operator, s.priority, s.channel, s.timeoutMs, s.maxAttempts,
                  s.attempts + 1, s.claimedNode,
                  s.idempotencyKey, s.callback, s.parentTaskId, s.vpc, s.node, s.nodeLabel, s.hashBucket,
                  s.bizRaceLabels, s.bizRaceEntry, s.bizGroup, s.bizBatchId, s.createdAt, now)
  }

  /** Requeue and R1 reset: back to schedulable, attempts and node untouched. */
  function Returned(p: ProcessingRow): (s: SchedulableRow)
  {
    SchedulableRow(p.typ, p.operator, p.priority, p.channel, p.timeoutMs, p.maxAttempts,
                   p.attempts, p.claimedNode,
                   p.idempotencyKey, p.callback, p.parentTaskId, p.vpc, p.node, p.nodeLabel, p.hashBucket,
                   p.bizRaceLabels, p.bizRaceEntry, p.bizGroup, p.bizBatchId, p.createdAt, p.updatedAt)
  }

  function Completed(p: ProcessingRow, outcome: Outcome, error: string, at: Time): (c: CompletedRow)
  {
    CompletedRow(p.typ, p.operator, p.priority, p.channel, p.timeoutMs, p.maxAttempts,
                 p.attempts, p.claimedNode, error,
                 p.idempotencyKey, p.callback, p.parentTaskId, p.vpc, p.node, p.nodeLabel,
                 p.bizRaceLabels, p.bizRaceEntry, p.bizGroup, p.bizBatchId,
                 p.createdAt, p.updatedAt, outcome, at)
  }

  // ----- derived tasks -----

  /** Conversion of a 32-bit value to 16 bits, two's complement. */
  function Int16(x: int): (r: int)
    ensures -0x8000 <= r < 0x8000 && (r - x) % 0x1_0000 == 0
  {
    (x + 0x8000) % 0x1_0000 - 0x8000
  }

  function DerivedPriority(p: int): (r: int)
    ensures MIN_PRIORITY <= r <= MAX_PRIORITY
  {
    if p <= 0 then DEFAULT_PRIORITY
    else if p < MIN_PRIORITY then MIN_PRIORITY
    else if p > MAX_PRIORITY then MAX_PRIORITY
    else p
  }

  function OrDefault(v: int, default: int): int {
    if v <= 0 then default else v
  }

  function Digits(n: nat): (s: string)
    ensures |s| > 0 && forall i :: 0 <= i < |s| ==> '0' <= s[i] <= '9'
  {
    var d := [('0' as int + n % 10) as char];
    if n < 10 then d else Digits(n / 10) + d
  }

  function Decimal(x: int): (s: string)
    ensures forall i :: 0 <= i < |s| ==> s[i] != ':'
  {
    if x < 0 then "-" + Digits(-x) else Digits(x)
  }

  /** The ledger key of a derived task: its own, or parent:attempt:outcome. */
  function DerivedKey(t: CallbackTask, parent: TaskId, attempts: int, outcome: Outcome): string {
    if t.idempotencyKey != "" then t.idempotencyKey else DefaultKey(parent, attempts, outcome)
  }

  function DefaultKey(parent: TaskId, attempts: int, outcome: Outcome): string {
    Decimal(parent) + ":" + Decimal(attempts) + ":" + Decimal(outcome.Code())
  }

  function DerivedPending(t: CallbackTask, parent: TaskId, proc: ProcessingRow, key: string, at: Time)
    : (p: PendingRow)
    ensures p.parentTaskId == parent
    ensures ColumnsAccepted(proc.priority, proc.channel) ==> (p.Accepted() <==> BucketInRange(Int16(t.hashBucket)))
  {
    PendingRow(t.typ, t.operator, DerivedPriority(t.priority),
               if t.channel != "" then t.channel else proc.channel,
               OrDefault(t.timeoutMs, DERIVED_TIMEOUT_MS), OrDefault(t.maxAttempts, DERIVED_MAX_ATTEMPTS),
               key, MarshalCallback(t.callback), parent, t.vpc, t.node, t.nodeLabel, Int16(t.hashBucket),
               t.bizRaceLabels, t.bizRaceEntry, t.bizGroup, t.bizBatchId, at, at)
  }

  /** The specification a derived row answers. */
  function Specified(p: PendingRow, payload: Json): CallbackTask {
    CallbackTask(p.typ, p.operator, p.priority, p.channel, p.vpc, p.node, p.nodeLabel, p.hashBucket,
                 p.timeoutMs, p.maxAttempts, p.idempotencyKey, payload, UnmarshalCallback(p.callback),
                 p.bizRaceLabels, p.bizRaceEntry, p.bizGroup, p.bizBatchId)
  }

  /** A specification that leaves nothing to a default, a clamp or a conversion. */
  predicate Explicit(t: CallbackTask) {
    && MIN_PRIORITY < t.priority <= MAX_PRIORITY && t.channel != "" && t.timeoutMs > 0 && t.maxAttempts > 0
    && -0x8000 <= t.hashBucket < 0x8000 && t.payload != "" && t.idempotencyKey != ""
    && (t.callback.Some? ==> t.callback.value.onSuccess.Some? || t.callback.value.onError.Some?)
  }

  /** The specification can be read back from the derived row exactly when it is explicit. */
  lemma DerivedAsSpecified(t: CallbackTask, parent: TaskId, proc: ProcessingRow, outcome: Outcome, at: Time)
    requires proc.channel != ""
    ensures var key := DerivedKey(t, parent, proc.attempts, outcome);
            Specified(DerivedPending(t, parent, proc, key, at), StoredPayload(t.payload)) == t
            <==> Explicit(t)
  {
    assert |DefaultKey(parent, proc.attempts, outcome)| > 0;
  }

  /** Payload columns are NOT NULL: an absent payload is stored as the JSON literal null. */
  function StoredPayload(p: Json): (r: Json)
    ensures r != ""
  {
    if p == "" then "null" else p
  }
}
