/** The ledger store: seven tables updated in place, one transaction per method. Every
    method is proved to commit exactly its transaction on the tables' value, and to
    restore all seven tables when a constraint fails on the way. */
module LedgerStore {
  import opened Wrappers
  import opened Rows
  import opened LedgerTx
  import opened Query
  import opened Orders

  class Store {
    var identities: map<TaskId, IdentityRow>
    var payloads: map<TaskId, Json>
    var pendings: map<TaskId, PendingRow>
    var schedulables: map<TaskId, SchedulableRow>
    var processings: map<TaskId, ProcessingRow>
    var completeds: map<TaskId, CompletedRow>
    var results: map<TaskId, ResultRow>

    function Tables(): Ledger
      reads this
    {
      Ledger(identities, payloads, pendings, schedulables, processings, completeds, results)
    }

    constructor ()
      ensures Tables() == EMPTY
    {
      identities, payloads, pendings, schedulables, processings, completeds, results :=
        map[], map[], map[], map[], map[], map[], map[];
    }

    // ----- single statements -----

    method Rollback(saved: Ledger)
      modifies this
      ensures Tables() == saved
    {
      identities, payloads, pendings := saved.identities, saved.payloads, saved.pendings;
      schedulables, processings := saved.schedulables, saved.processings;
      completeds, results := saved.completeds, saved.results;
    }

    /** INSERT ... ON CONFLICT (idempotency_key) DO NOTHING: rows affected, or an error when
        the task id is taken under another key. */
    method UpsertIdentity(id: TaskId, key: string, at: Time) returns (affected: Result<nat, DbError>)
      modifies `identities
      ensures affected == if KeyTaken(old(Tables()), key) then Ok(0)
                          else if id in old(identities) then Err(Constraint) else Ok(1)
      ensures Tables() == if affected == Ok(1) then WithIdentity(old(Tables()), id, key, at) else old(Tables())
    {
      if exists i :: i in identities && identities[i].key == key { return Ok(0); }
      if id in identities { return Err(Constraint); }
      identities := identities[id := IdentityRow(key, at)];
      return Ok(1);
    }

    method InsertPayload(id: TaskId, payload: Json) returns (ok: bool)
      modifies `payloads
      ensures ok <==> id !in old(payloads)
      ensures payloads == if ok then old(payloads)[id := payload] else old(payloads)
    {
      ok := id !in payloads;
      if ok { payloads := payloads[id := payload]; }
    }

    method InsertPending(id: TaskId, row: PendingRow) returns (ok: bool)
      modifies `pendings
      ensures ok <==> id !in old(pendings) && row.Accepted()
      ensures pendings == if ok then old(pendings)[id := row] else old(pendings)
    {
      ok := id !in pendings && row.Accepted();
      if ok { pendings := pendings[id := row]; }
    }

    method InsertSchedulables(rows: map<TaskId, SchedulableRow>) returns (ok: bool)
      modifies `schedulables
      ensures ok <==> !exists id :: id in rows && (id in old(schedulables) || !rows[id].Accepted())
      ensures schedulables == if ok then old(schedulables) + rows else old(schedulables)
    {
      ok := !exists id :: id in rows && (id in schedulables || !rows[id].Accepted());
      if ok { schedulables := schedulables + rows; }
    }

    // ----- creation -----

    /** Payload, then pending row, inside the caller's transaction. */
    method CreateTask(id: TaskId, payload: Json, row: PendingRow) returns (ok: bool)
      modifies `payloads, `pendings
      ensures var tx := CreateRows(old(Tables()), id, payload, row);
              (ok <==> tx.Ok?) && (ok ==> Tables() == tx.value)
    {
      ok := InsertPayload(id, if payload == "" then "null" else payload);
      if ok { ok := InsertPending(id, row); }
    }

    method Enqueue(req: EnqueueRequest, now: Time) returns (r: Tx<EnqueueResult>)
      requires UniqueKeys(Tables())
      modifies this
      ensures match EnqueueTx(old(Tables()), req, now)
              case Ok(p) => Tables() == p.0 && r == Ok(p.1)
              case Err(e) => Tables() == old(Tables()) && r == Err(e)
    {
      var createdAt := req.createdAt.GetOr(now);
      var updatedAt := req.updatedAt.GetOr(createdAt);
      var saved := Tables();
      if req.idempotencyKey != "" {
        var affected := UpsertIdentity(req.taskId, req.idempotencyKey, createdAt);
        match affected
        case Err(e) => return Err(e);
        case Ok(n) =>
          if n == 0 {
            var owner :| owner in identities && identities[owner].key == req.idempotencyKey;
            return Ok(EnqueueResult(owner, false));
          }
      }
      var ok := CreateTask(req.taskId, req.payload, NewPending(req, createdAt, updatedAt));
      if !ok {
        Rollback(saved);
        return Err(Constraint);
      }
      return Ok(EnqueueResult(req.taskId, true));
    }

    // ----- promotion, claim, return -----

    /** CreateBulk, then DELETE, of the rows gathered by Promote. */
    method MoveToSchedulable(builders: map<TaskId, SchedulableRow>, ids: set<TaskId>) returns (ok: bool)
      requires ids <= pendings.Keys && builders == PromotedRows(Tables(), ids)
      modifies `pendings, `schedulables
      ensures var tx := PromoteTx(old(Tables()), ids);
              (ok <==> tx.Ok?) && Tables() == Commit(old(Tables()), tx)
    {
      ok := InsertSchedulables(builders);
      if ok { pendings := pendings - ids; }
    }

    /** The candidates of a promotion, and the rows to insert for them. */
    method PickForPromotion(limit: int, locked: set<TaskId>)
      returns (builders: map<TaskId, SchedulableRow>, picked: set<TaskId>, count: nat)
      ensures IsTop(pendings.Keys - locked, limit, ByPriority(pendings), picked)
      ensures builders == PromotedRows(Tables(), picked) && count == |picked|
    {
      ghost var top;
      var rows;
      rows, top := Top(pendings.Keys - locked, if limit <= 0 then 0 else limit, ByPriority(pendings));
      builders, picked := Collect(rows, top, ByPriority(pendings), pendings, Promoted);
      count := |rows|;
    }

    method Promote(limit: int, locked: set<TaskId>) returns (r: Tx<nat>, ghost picked: set<TaskId>)
      modifies `pendings, `schedulables
      ensures IsTop(old(pendings).Keys - locked, limit, ByPriority(old(pendings)), picked)
      ensures HighestPriority(old(pendings), locked, picked)
      ensures var tx := PromoteTx(old(Tables()), picked);
              Tables() == Commit(old(Tables()), tx) && r == if tx.Ok? then Ok(|picked|) else Err(Constraint)
    {
      var builders, ids, count := PickForPromotion(limit, locked);
      picked := ids;
      var ok := MoveToSchedulable(builders, ids);
      r := if ok then Ok(count) else Err(Constraint);
    }

    /** The delete and the insert of the claim statement. */
    method MoveToProcessing(moved: map<TaskId, ProcessingRow>, ids: set<TaskId>, now: Time) returns (ok: bool)
      requires ids <= schedulables.Keys && moved == ClaimedRows(Tables(), ids, now)
      modifies `schedulables, `processings
      ensures var tx := ClaimTx(old(Tables()), ids, now);
              (ok <==> tx.Ok?) && Tables() == Commit(old(Tables()), tx)
    {
      ok := !exists id :: id in moved && (id in processings || !moved[id].Accepted());
      if ok {
        processings := processings + moved;
        schedulables := schedulables - ids;
      }
    }

    /** Reads the returned rows one by one. */
    static method ScanClaimed(rows: seq<TaskId>, ghost picked: set<TaskId>, ghost before: (TaskId, TaskId) -> bool,
                              moved: map<TaskId, ProcessingRow>) returns (claimed: seq<Claimed>)
      requires Listed(rows, picked, before) && moved.Keys == picked
      requires forall i :: 0 <= i < |rows| ==> rows[i] in picked
      ensures Returning(claimed, picked, moved)
    {
      claimed := [];
      for i := 0 to |rows|
        invariant |claimed| == i && forall k :: 0 <= k < i ==> claimed[k] == Claimed(rows[k], moved[rows[k]])
      {
        claimed := claimed + [Claimed(rows[i], moved[rows[i]])];
      }
      forall id | id in picked ensures Names(claimed, id) {
        var k :| 0 <= k < |rows| && rows[k] == id;
        assert claimed[k].taskId == id;
      }
    }

    /** The candidates of a claim, and the rows to insert for them. */
    method PickForClaim(limit: int, locked: set<TaskId>, now: Time)
      returns (moved: map<TaskId, ProcessingRow>, claimed: seq<Claimed>, picked: set<TaskId>)
      ensures IsTop(schedulables.Keys - locked, limit, ByPriorityThenId(schedulables), picked)
      ensures moved == ClaimedRows(Tables(), picked, now) && Returning(claimed, picked, moved)
    {
      var rows;
      ghost var top;
      rows, top := Top(schedulables.Keys - locked, if limit <= 0 then 0 else limit, ByPriorityThenId(schedulables));
      moved, picked := Collect(rows, top, ByPriorityThenId(schedulables), schedulables, (s: SchedulableRow) => ClaimedRow(s, now));
      claimed := ScanClaimed(rows, picked, ByPriorityThenId(schedulables), moved);
    }

    /** One SQL statement; RETURNING yields the new rows. */
    method Claim(limit: int, locked: set<TaskId>, now: Time) returns (r: Tx<seq<Claimed>>, ghost picked: set<TaskId>)
      modifies `schedulables, `processings
      ensures IsTop(old(schedulables).Keys - locked, limit, ByPriorityThenId(old(schedulables)), picked)
      ensures MostUrgent(old(schedulables), locked, picked)
      ensures var tx := ClaimTx(old(Tables()), picked, now);
              && Tables() == Commit(old(Tables()), tx)
              && match tx
                 case Err(e) => r == Err(e)
                 case Ok(_) => r.Ok? && Returning(r.value, picked, ClaimedRows(old(Tables()), picked, now))
    {
      var moved, claimed, ids := PickForClaim(limit, locked, now);
      picked := ids;
      TopIsMostUrgent(schedulables, limit, locked, picked);
      var ok := MoveToProcessing(moved, ids, now);
      r := if ok then Ok(claimed) else Err(Constraint);
    }

    static ghost predicate Names(rows: seq<Claimed>, id: TaskId) {
      exists i :: 0 <= i < |rows| && rows[i].taskId == id
    }

    /** The rows of a claim: one for each picked id, with what was inserted for it. */
    static ghost predicate Returning(rows: seq<Claimed>, picked: set<TaskId>, moved: map<TaskId, ProcessingRow>) {
      && |rows| == |picked|
      && (forall i :: 0 <= i < |rows| ==> rows[i].taskId in picked && rows[i].taskId in moved && rows[i].row == moved[rows[i].taskId])
      && (forall id :: id in picked ==> Names(rows, id))
      && forall i, j :: 0 <= i < j < |rows| ==> rows[i].taskId != rows[j].taskId
    }

    method PickForReset(deadline: Time, limit: int, locked: set<TaskId>)
      returns (builders: map<TaskId, SchedulableRow>, picked: set<TaskId>, count: nat)
      ensures IsTop(Expired(processings, deadline) - locked, limit, ByAge(processings), picked)
      ensures builders == ReturnedRows(Tables(), picked) && count == |picked|
    {
      ghost var top;
      var rows;
      rows, top := Top(Expired(processings, deadline) - locked, if limit <= 0 then 0 else limit, ByAge(processings));
      builders, picked := Collect(rows, top, ByAge(processings), processings, Returned);
      count := |rows|;
    }

    method ResetExpired(deadline: Time, limit: int, locked: set<TaskId>) returns (r: Tx<nat>, ghost picked: set<TaskId>)
      modifies `processings, `schedulables
      ensures IsTop(Expired(old(processings), deadline) - locked, limit, ByAge(old(processings)), picked)
      ensures OldestOverdue(old(processings), deadline, limit, locked, picked)
      ensures var tx := ReturnTx(old(Tables()), picked);
              Tables() == Commit(old(Tables()), tx) && r == if tx.Ok? then Ok(|picked|) else Err(Constraint)
    {
      var builders, ids, count := PickForReset(deadline, limit, locked);
      picked := ids;
      TopIsOldestOverdue(processings, deadline, limit, locked, picked);
      var ok := InsertSchedulables(builders);
      if ok { processings := processings - ids; }
      r := if ok then Ok(count) else Err(Constraint);
    }

    /** Reports whether a row moved. */
    method Requeue(id: TaskId) returns (r: Tx<bool>)
      modifies `processings, `schedulables
      ensures var tx := RequeueTx(old(Tables()), id);
              && Tables() == Commit(old(Tables()), tx)
              && r == if tx.Ok? then Ok(id in old(processings)) else Err(Constraint)
    {
      if id !in processings { return Ok(false); }
      var rows := map[id := Returned(processings[id])];
      assert rows == ReturnedRows(Tables(), {id});
      var ok := InsertSchedulables(rows);
      if ok { processings := processings - {id}; }
      r := if ok then Ok(true) else Err(Constraint);
    }

    // ----- reads -----

    method GetPayload(id: TaskId) returns (r: Option<Json>)
      ensures r == PayloadOf(Tables(), id)
    {
      if id in payloads { return Some(payloads[id]); }
      return None;
    }

    method GetProcessing(id: TaskId) returns (r: Option<ProcessingRow>)
      ensures r == if id in processings then Some(processings[id]) else None
    {
      if id in processings { return Some(processings[id]); }
      return None;
    }

    // ----- the terminal move -----

    /** Walks up the completed table, stopping one past the depth limit. */
    method CallbackDepth(id: TaskId) returns (depth: nat)
      ensures depth == DepthFrom(completeds, id, 0)
    {
      depth := 0;
      var cur := id;
      while depth <= MAX_CALLBACK_DEPTH
        invariant DepthFrom(completeds, cur, depth) == DepthFrom(completeds, id, 0)
        invariant depth <= MAX_CALLBACK_DEPTH + 1
        decreases MAX_CALLBACK_DEPTH + 1 - depth
      {
        if cur !in completeds || completeds[cur].parentTaskId == 0 { return; }
        cur := completeds[cur].parentTaskId;
        depth := depth + 1;
      }
    }

    /** Runs inside the terminal transaction; false means a constraint failed. */
    method DeriveCallback(nextId: TaskId, parent: TaskId, proc: ProcessingRow, outcome: Outcome, at: Time) returns (ok: bool)
      modifies `identities, `payloads, `pendings
      ensures var tx := DeriveTx(old(Tables()), nextId, parent, proc, outcome, at);
              (ok <==> tx.Ok?) && (ok ==> Tables() == tx.value)
    {
      var wanted := Wanted(proc, outcome);
      if wanted.None? { return true; }
      var t := wanted.value;
      var depth := CallbackDepth(parent);
      if depth >= MAX_CALLBACK_DEPTH { return true; }
      var key := DerivedKey(t, parent, proc.attempts, outcome);
      var affected := UpsertIdentity(nextId, key, at);
      match affected
      case Err(_) => return false;
      case Ok(n) =>
        if n == 0 { return true; }
        ok := CreateTask(nextId, t.payload, DerivedPending(t, parent, proc, key, at));
    }

    /** The four writes of a terminal move; None when all of them went through. */
    method WriteTerminal(id: TaskId, outcome: Outcome, result: Option<Json>, error: string, at: Time)
      returns (failure: Option<DbError>)
      requires id in processings
      modifies `completeds, `results, `payloads, `processings
      ensures failure == if id in old(completeds) || !Completed(old(processings[id]), outcome, error, at).Accepted() then Some(Constraint)
                         else if id in old(results) then Some(DuplicateResult) else None
      ensures failure.None? ==> Tables() == Finish(old(Tables()), id, outcome, result, error, at)
    {
      var proc := processings[id];
      var payload := if id in payloads then Some(payloads[id]) else None;
      var row := Completed(proc, outcome, error, at);
      if id in completeds || !row.Accepted() { return Some(Constraint); }
      completeds := completeds[id := row];
      if id in results { return Some(DuplicateResult); }
      results := results[id := ResultRow(outcome, proc.attempts, NonEmpty(payload), NonEmpty(result), error, at)];
      payloads := payloads - {id};
      processings := processings - {id};
      return None;
    }

    /** Everything a terminal move writes, without the rollback. */
    method Terminate(nextId: TaskId, id: TaskId, outcome: Outcome, result: Option<Json>, error: string, at: Time)
      returns (failure: Option<DbError>)
      requires id in processings
      modifies this
      ensures var tx := TerminalTx(old(Tables()), nextId, id, None, outcome, result, error, at);
              match failure case None => tx == Ok(Tables()) case Some(e) => tx == Err(e)
    {
      var proc := processings[id];
      failure := WriteTerminal(id, outcome, result, error, at);
      if failure.None? {
        var ok := DeriveCallback(nextId, id, proc, outcome, at);
        if !ok { failure := Some(Constraint); }
      }
    }

    method TerminalMove(nextId: TaskId, id: TaskId, fence: Option<int>, outcome: Outcome,
                        result: Option<Json>, error: string, at: Time) returns (r: Tx<bool>)
      modifies this
      ensures var tx := TerminalTx(old(Tables()), nextId, id, fence, outcome, result, error, at);
              Tables() == Commit(old(Tables()), tx) && r == TerminalOutcome(tx)
    {
      var saved := Tables();
      if id !in processings || (fence.Some? && processings[id].attempts != fence.value) { return Ok(false); }
      var failure := Terminate(nextId, id, outcome, result, error, at);
      if failure.Some? { Rollback(saved); }
      r := match failure case None => Ok(true) case Some(Constraint) => Err(Constraint) case Some(_) => Ok(false);
    }

    method Complete(nextId: TaskId, req: CompleteRequest, now: Time) returns (r: Tx<bool>)
      modifies this
      ensures var tx := CompleteTx(old(Tables()), nextId, req, now);
              Tables() == Commit(old(Tables()), tx) && r == TerminalOutcome(tx)
    {
      r := TerminalMove(nextId, req.taskId, Some(req.attempt), req.outcome, req.result, req.error, req.completedAt.GetOr(now));
    }

    method DeadLetter(nextId: TaskId, id: TaskId, now: Time) returns (r: Tx<bool>)
      modifies this
      ensures var tx := DeadLetterTx(old(Tables()), nextId, id, now);
              Tables() == Commit(old(Tables()), tx) && r == TerminalOutcome(tx)
    {
      r := TerminalMove(nextId, id, None, Dead, None, "", now);
    }
  }
}
