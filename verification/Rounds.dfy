/** The drivers inside whole runs: a scheduling round is a stretch of protocol steps, and
    repeated R1 rounds drain the expired rows. */
module Rounds {
  import opened Wrappers
  import opened Rows
  import opened LedgerTx
  import opened TaskView
  import opened Query
  import opened Orders
  import opened LedgerStore
  import opened Collect
  import opened Protocol
  import opened Runs
  import opened Races
  import opened Budgets
  import opened Actors
  import opened Results
  import opened Seqs

  // ----- a scheduling round is a stretch of a run -----

  function Handle(c: Claimed, nextId: TaskId, accepted: bool): Step {
    Dispatch(c, nextId, accepted && !OverBudget(c))
  }

  lemma ClaimRun(r: Run, l2: Ledger, promoted: set<TaskId>, picked: set<TaskId>, rows: seq<Claimed>) returns (r': Run)
    requires IsRun(r) && LedgerCycle.PromotesAndClaims(Last(r).l, l2, promoted, picked, rows, Last(r).now)
    ensures IsRun(r') && r'.steps == r.steps + [Promote(promoted), Claim(picked)] && Last(r').now == Last(r).now
    ensures Last(r').l == l2 && Continues(r, r')
    ensures forall i :: 0 <= i < |rows| ==> rows[i] in Last(r').work && InFlightAs(l2, rows[i])
  {
    InvAt(r, |r.steps|);
    PromoteStep(Last(r).l, promoted);
    var r1 := Extend(r, Promote(promoted));
    var l1, now := Last(r1).l, Last(r).now;
    ClaimStep(l1, picked, now);
    r' := Extend(r1, Claim(picked));
    forall i | 0 <= i < |rows| ensures rows[i] in Last(r').work && InFlightAs(l2, rows[i]) {
      var id := rows[i].taskId;
      assert Last(r').l.processings[id] == ClaimedRows(l1, picked, now)[id];
    }
  }

  ghost predicate InTurn(r: Run, first: nat, rows: seq<Claimed>, n: nat, nextIds: nat -> TaskId, accepts: Claimed -> bool) {
    forall i :: 0 <= i < n <= |rows| && first + i < |r.steps| ==> r.steps[first + i] == Handle(rows[i], nextIds(i), accepts(rows[i]))
  }

  lemma TurnsMakeRound(r: Run, r': Run, rows: seq<Claimed>, seen: nat, nextIds: nat -> TaskId, accepts: Claimed -> bool)
    requires IsRun(r) && IsRun(r') && |r.steps| > 0 && Continues(r, r') && |r'.steps| == |r.steps| + seen && seen <= |rows|
    requires r.steps[|r.steps| - 1].Claim? && (forall id :: id in r.steps[|r.steps| - 1].ids ==> Holds(rows, id))
    requires (forall i :: 0 <= i < |rows| ==> InFlightAs(Last(r).l, rows[i])) && InTurn(r', |r.steps|, rows, seen, nextIds, accepts)
    ensures r'.steps[|r.steps| - 1].Claim? && RoundAt(r', |r.steps| - 1, rows)
  {
    var n := |r.steps|;
    assert r'.steps[n - 1] == r.steps[n - 1] && r'.states[n] == Last(r);
    forall j | 0 <= j < |rows| && n + j < |r'.steps| ensures HandledAt(r'.steps, n + j, rows[j]) {
      assert r'.steps[n + j] == Handle(rows[j], nextIds(j), accepts(rows[j]));
    }
  }

  /** Every claimed row of a round is in the scheduler's hands until it is dispatched, so
      the round is a stretch of a run: everything proved of runs covers RunOnce. What it
      sends of the rows it looks at is exactly what is within budget and accepted. */
  lemma RoundExtendsRun(r: Run, l2: Ledger, promoted: set<TaskId>, picked: set<TaskId>, rows: seq<Claimed>, seen: nat,
                        nextIds: nat -> TaskId, accepts: Claimed -> bool) returns (r': Run)
    requires IsRun(r) && seen <= |rows| && (forall i :: nextIds(i) != 0)
    requires LedgerCycle.PromotesAndClaims(Last(r).l, l2, promoted, picked, rows, Last(r).now)
    ensures IsRun(r') && Continues(r, r') && |r'.steps| == |r.steps| + 2 + seen
    ensures InTurn(r', |r.steps| + 2, rows, seen, nextIds, accepts)
    ensures r'.steps[|r.steps| + 1] == Claim(picked) && RoundAt(r', |r.steps| + 1, rows)
    ensures Last(r').l == DispatchAll(l2, rows[..seen], nextIds, Last(r).now)
    ensures Sent(l2, rows[..seen], nextIds, Last(r).now, accepts) == Sendable(rows[..seen], accepts)
    ensures RowsTreated(r', |r.steps| + 2, rows, seen, accepts)
  {
    var r2 := ClaimRun(r, l2, promoted, picked, rows);
    forall id | id in picked ensures Holds(rows, id) { assert Store.Names(rows, id); }
    r' := DispatchRun(r2, rows, seen, nextIds, accepts);
    TurnsMakeRound(r2, r', rows, seen, nextIds, accepts);
    RoundAtTurn(r2, r', rows, seen);
    TreatsRows(r', |r2.steps|, rows, seen, nextIds, accepts);
  }

  lemma RoundAtTurn(r: Run, r': Run, rows: seq<Claimed>, seen: nat)
    requires IsRun(r) && IsRun(r') && |r.steps| > 0 && Continues(r, r') && |r'.steps| == |r.steps| + seen && seen <= |rows|
    requires r'.steps[|r.steps| - 1].Claim? && RoundAt(r', |r.steps| - 1, rows)
    requires forall i, j :: 0 <= i < j < |rows| ==> rows[i].taskId != rows[j].taskId
    ensures AtTurn(r', |r.steps|, rows, seen)
  {
    forall i | 0 <= i < seen ensures HandledAt(r'.steps, |r.steps| + i, rows[i]) {
      assert HandledAt(r'.steps, |r.steps| - 1 + 1 + i, rows[i]);
    }
  }

  function Sendable(rows: seq<Claimed>, accepts: Claimed -> bool): seq<Claimed> {
    if rows == [] then []
    else var n := |rows| - 1;
         Sendable(rows[..n], accepts) + if !OverBudget(rows[n]) && accepts(rows[n]) then [rows[n]] else []
  }

  ghost predicate StillHeld(s: Sys, rows: seq<Claimed>, n: nat) {
    forall i :: n <= i < |rows| ==> rows[i] in s.work && InFlightAs(s.l, rows[i])
  }

  /** Handling one row leaves the others where they are. */
  lemma HandleOne(r: Run, rows: seq<Claimed>, n: nat, nextId: TaskId, accepted: bool) returns (r': Run)
    requires IsRun(r) && n < |rows| && nextId != 0 && StillHeld(Last(r), rows, n)
    requires forall i, j :: 0 <= i < j < |rows| ==> rows[i].taskId != rows[j].taskId
    ensures IsRun(r') && Continues(r, r') && r'.steps == r.steps + [Handle(rows[n], nextId, accepted)]
    ensures Last(r').now == Last(r).now && Last(r').l == Commit(Last(r).l, DispatchTx(Last(r).l, rows[n], nextId, Last(r).now))
    ensures rows[n].taskId in Last(r).l.payloads && StillHeld(Last(r'), rows, n + 1)
  {
    var l := Last(r).l;
    InvAt(r, |r.steps|);
    assert IdOk(l, rows[n].taskId);
    r' := Extend(r, Handle(rows[n], nextId, accepted));
    var k := |r.steps|;
    assert r'.states[k] == Last(r) && r'.steps[k] == Handle(rows[n], nextId, accepted);
    forall i | n + 1 <= i < |rows| ensures rows[i] in Last(r').work && InFlightAs(Last(r').l, rows[i]) {
      assert InFlightAs(l, rows[i]) && IdOk(l, rows[i].taskId);
      OtherHandled(r', k, rows[i].taskId);
      assert IdOk(Last(r').l, rows[i].taskId);
    }
  }

  /** What handling the first n rows makes of the ledger, and what it sends. */
  ghost predicate HandledTo(l: Ledger, l': Ledger, rows: seq<Claimed>, n: nat, nextIds: nat -> TaskId, now: Time, accepts: Claimed -> bool) {
    && n <= |rows| && l' == DispatchAll(l, rows[..n], nextIds, now)
    && Sent(l, rows[..n], nextIds, now, accepts) == Sendable(rows[..n], accepts)
  }

  lemma HandledOneMore(l: Ledger, l': Ledger, rows: seq<Claimed>, n: nat, nextIds: nat -> TaskId, now: Time, accepts: Claimed -> bool)
    requires n < |rows| && HandledTo(l, l', rows, n, nextIds, now, accepts) && rows[n].taskId in l'.payloads
    ensures HandledTo(l, Commit(l', DispatchTx(l', rows[n], nextIds(n), now)), rows, n + 1, nextIds, now, accepts)
  {
    TakeTake(rows, n + 1, n);
  }

  lemma OneMoreTurn(r: Run, r0: Run, r': Run, rows: seq<Claimed>, n: nat, nextIds: nat -> TaskId, accepts: Claimed -> bool)
    requires Continues(r, r0) && Continues(r0, r') && n < |rows| && |r0.steps| == |r.steps| + n
    requires r'.steps == r0.steps + [Handle(rows[n], nextIds(n), accepts(rows[n]))]
    requires InTurn(r0, |r.steps|, rows, n, nextIds, accepts)
    ensures Continues(r, r') && InTurn(r', |r.steps|, rows, n + 1, nextIds, accepts)
  {
    forall i | 0 <= i < n + 1 && |r.steps| + i < |r'.steps|
      ensures r'.steps[|r.steps| + i] == Handle(rows[i], nextIds(i), accepts(rows[i]))
    {
      if i < n { assert r'.steps[|r.steps| + i] == r0.steps[|r.steps| + i]; }
    }
  }

  lemma {:induction false} DispatchRun(r: Run, rows: seq<Claimed>, n: nat, nextIds: nat -> TaskId, accepts: Claimed -> bool) returns (r': Run)
    requires IsRun(r) && n <= |rows| && (forall i :: nextIds(i) != 0) && StillHeld(Last(r), rows, 0)
    requires forall i, j :: 0 <= i < j < |rows| ==> rows[i].taskId != rows[j].taskId
    ensures IsRun(r') && Continues(r, r') && |r'.steps| == |r.steps| + n && Last(r').now == Last(r).now
    ensures InTurn(r', |r.steps|, rows, n, nextIds, accepts) && StillHeld(Last(r'), rows, n)
    ensures HandledTo(Last(r).l, Last(r').l, rows, n, nextIds, Last(r).now, accepts)
  {
    if n == 0 {
      r' := r;
    } else {
      var r0 := DispatchRun(r, rows, n - 1, nextIds, accepts);
      r' := HandleOne(r0, rows, n - 1, nextIds(n - 1), accepts(rows[n - 1]));
      OneMoreTurn(r, r0, r', rows, n - 1, nextIds, accepts);
      HandledOneMore(Last(r).l, Last(r0).l, rows, n - 1, nextIds, Last(r).now, accepts);
    }
  }

  // ----- what becomes of each row -----

  ghost predicate AtTurn(r: Run, first: nat, rows: seq<Claimed>, seen: nat)
    requires |r.states| == |r.steps| + 1
  {
    && seen <= |rows| && first + seen <= |r.steps|
    && (forall j :: 0 <= j < |rows| ==> InFlightAs(r.states[first].l, rows[j]))
    && (forall i, j :: 0 <= i < j < |rows| ==> rows[i].taskId != rows[j].taskId)
    && forall i :: 0 <= i < seen ==> HandledAt(r.steps, first + i, rows[i])
  }

  /** A row waits for its turn untouched. */
  lemma {:induction false} WaitsForTurn(r: Run, first: nat, rows: seq<Claimed>, seen: nat, i: nat, j: nat)
    requires IsRun(r) && AtTurn(r, first, rows, seen) && i <= seen && i <= j < |rows|
    ensures View(r.states[first + i].l, rows[j].taskId) == View(r.states[first].l, rows[j].taskId)
    ensures View(r.states[first].l, rows[j].taskId).Processing?
  {
    InvAt(r, first);
    assert InFlightAs(r.states[first].l, rows[j]) && IdOk(r.states[first].l, rows[j].taskId);
    if i > 0 {
      WaitsForTurn(r, first, rows, seen, i - 1, j);
      assert HandledAt(r.steps, first + i - 1, rows[i - 1]);
      OtherHandled(r, first + i - 1, rows[j].taskId);
    }
  }

  /** One turn: a row whose attempts do not exceed its budget is sent exactly when accepted, and
      no table changes; any other is not sent, and its task is dead afterwards unless its
      callback cannot be created, when again nothing changes. */
  ghost predicate TurnTaken(s: Sys, step: Step, s': Sys, c: Claimed, accepted: bool) {
    && step.Dispatch? && step.c == c && InFlightAs(s.l, c)
    && if c.row.attempts <= c.row.maxAttempts
       then (step.sent <==> accepted) && s'.l == s.l
       else
         && !step.sent
         && if DerivationFits(Finish(s.l, c.taskId, Dead, None, "", s.now), step.nextId, c.taskId, c.row, Dead)
            then EndedWith(s.l, s'.l, c.taskId, Dead, None, "", s.now) && OnlyTask(s.l, s'.l, c.taskId, step.nextId)
            else s'.l == s.l
  }

  lemma TurnValues(s: Sys, c: Claimed, nextId: TaskId, accepted: bool)
    requires SysInv(s) && InFlightAs(s.l, c) && Enabled(s, Handle(c, nextId, accepted))
    ensures TurnTaken(s, Handle(c, nextId, accepted), Apply(s, Handle(c, nextId, accepted)), c, accepted)
  {
    TerminalValues(s.l, nextId, c.taskId, None, Dead, None, "", s.now);
  }

  lemma TakesTurn(r: Run, first: nat, rows: seq<Claimed>, seen: nat, nextIds: nat -> TaskId, accepts: Claimed -> bool, i: nat)
    requires IsRun(r) && AtTurn(r, first, rows, seen) && InTurn(r, first, rows, seen, nextIds, accepts) && i < seen
    ensures TurnTaken(r.states[first + i], r.steps[first + i], r.states[first + i + 1], rows[i], accepts(rows[i]))
  {
    var k, c := first + i, rows[i];
    WaitsForTurn(r, first, rows, seen, i, i);
    InvAt(r, first);
    InvAt(r, k);
    StepAt(r, k);
    StillAsClaimed(r.states[first].l, r.states[k].l, c);
    assert r.steps[k] == Handle(c, nextIds(i), accepts(c));
    TurnValues(r.states[k], c, nextIds(i), accepts(c));
  }

  lemma StillAsClaimed(l: Ledger, l': Ledger, c: Claimed)
    requires Inv(l) && Inv(l') && InFlightAs(l, c) && View(l', c.taskId) == View(l, c.taskId)
    ensures InFlightAs(l', c)
  {
    assert IdOk(l, c.taskId) && IdOk(l', c.taskId);
  }

  /** Every row looked at takes its turn, and a row within its budget is still in flight with
      its payload when the round is over. */
  ghost predicate RowsTreated(r: Run, first: nat, rows: seq<Claimed>, seen: nat, accepts: Claimed -> bool)
    requires |r.states| == |r.steps| + 1 && first + seen <= |r.steps|
  {
    seen <= |rows| && forall i :: 0 <= i < seen ==>
      && TurnTaken(r.states[first + i], r.steps[first + i], r.states[first + i + 1], rows[i], accepts(rows[i]))
      && (rows[i].row.attempts <= rows[i].row.maxAttempts ==>
            && View(r.states[first + seen].l, rows[i].taskId) == View(r.states[first].l, rows[i].taskId)
            && View(r.states[first].l, rows[i].taskId).Processing?
            && View(r.states[first].l, rows[i].taskId).payload.Some?)
  }

  lemma {:induction false} StaysInFlight(r: Run, first: nat, rows: seq<Claimed>, seen: nat, nextIds: nat -> TaskId,
                                         accepts: Claimed -> bool, i: nat, k: nat)
    requires IsRun(r) && AtTurn(r, first, rows, seen) && InTurn(r, first, rows, seen, nextIds, accepts)
    requires i < k <= seen && rows[i].row.attempts <= rows[i].row.maxAttempts
    ensures View(r.states[first + k].l, rows[i].taskId) == View(r.states[first].l, rows[i].taskId)
    decreases k
  {
    if k == i + 1 {
      WaitsForTurn(r, first, rows, seen, i, i);
      TakesTurn(r, first, rows, seen, nextIds, accepts, i);
    } else {
      StaysInFlight(r, first, rows, seen, nextIds, accepts, i, k - 1);
      WaitsForTurn(r, first, rows, seen, 0, i);
      assert HandledAt(r.steps, first + k - 1, rows[k - 1]);
      OtherHandled(r, first + k - 1, rows[i].taskId);
    }
  }

  lemma TreatsRows(r: Run, first: nat, rows: seq<Claimed>, seen: nat, nextIds: nat -> TaskId, accepts: Claimed -> bool)
    requires IsRun(r) && AtTurn(r, first, rows, seen) && InTurn(r, first, rows, seen, nextIds, accepts)
    ensures RowsTreated(r, first, rows, seen, accepts)
  {
    forall i | 0 <= i < seen
      ensures TurnTaken(r.states[first + i], r.steps[first + i], r.states[first + i + 1], rows[i], accepts(rows[i]))
      ensures rows[i].row.attempts <= rows[i].row.maxAttempts ==>
                && View(r.states[first + seen].l, rows[i].taskId) == View(r.states[first].l, rows[i].taskId)
                && View(r.states[first].l, rows[i].taskId).Processing?
                && View(r.states[first].l, rows[i].taskId).payload.Some?
    {
      TakesTurn(r, first, rows, seen, nextIds, accepts, i);
      WaitsForTurn(r, first, rows, seen, 0, i);
      InvAt(r, first);
      assert IdOk(r.states[first].l, rows[i].taskId);
      if rows[i].row.attempts <= rows[i].row.maxAttempts { StaysInFlight(r, first, rows, seen, nextIds, accepts, i, seen); }
    }
  }

  // ----- the whole budget is used -----

  lemma SendOnce(r: Run) returns (r': Run)
    requires IsRun(r) && SysInv(Last(r)) && 1 in Last(r).l.processings && Claimed(1, Last(r).l.processings[1]) in Last(r).work
    requires Last(r).l.processings[1].attempts <= Last(r).l.processings[1].maxAttempts
    ensures IsRun(r') && SysInv(Last(r')) && Last(r').l == Last(r).l && Last(r').now == Last(r).now
    ensures SendCount(r'.steps, |r'.steps|, 1) == SendCount(r.steps, |r.steps|, 1) + 1
  {
    r' := Extend(r, Dispatch(Claimed(1, Last(r).l.processings[1]), 2, true));
    SameSends(r.steps, r'.steps, |r.steps|, 1);
  }

  lemma {:induction false} SameSends(steps: seq<Step>, more: seq<Step>, n: nat, id: TaskId)
    requires n <= |steps| && steps <= more
    ensures SendCount(more, n, id) == SendCount(steps, n, id)
  {
    if n > 0 { SameSends(steps, more, n - 1, id); }
  }

  lemma ClaimedOnceMore(r: Run) returns (r': Run)
    requires IsRun(r) && SysInv(Last(r)) && 1 in Last(r).l.processings
    ensures IsRun(r') && SysInv(Last(r')) && 1 in Last(r').l.processings && Claimed(1, Last(r').l.processings[1]) in Last(r').work
    ensures Last(r').l.processings[1].attempts == Last(r).l.processings[1].attempts + 1
    ensures Last(r').l.processings[1].maxAttempts == Last(r).l.processings[1].maxAttempts
    ensures SendCount(r'.steps, |r'.steps|, 1) == SendCount(r.steps, |r.steps|, 1)
  {
    var p, now := Last(r).l.processings[1], Last(r).now;
    var t := if p.updatedAt < now then now else p.updatedAt + 1;
    var r1 := Wait(r, t);
    var r2 := LateReset(r1, 0);
    r' := ClaimAgain(r2);
    var n := |r.steps|;
    SameSends(r.steps, r'.steps, n, 1);
    assert r'.steps == r.steps + [Tick(t), Reset({1}, 0), Claim({1})];
    assert SendCount(r'.steps, n + 3, 1) == SendCount(r'.steps, n + 2, 1) == SendCount(r'.steps, n + 1, 1) == SendCount(r'.steps, n, 1);
  }

  /** For every budget, and every number of deliveries up to it, there is a run that makes
      exactly that many: the last permitted attempt is sent like the others. */
  lemma {:induction false} WholeBudgetIsSent(max: int, n: nat) returns (r: Run)
    requires 1 <= n <= max
    ensures IsRun(r) && SysInv(Last(r)) && 1 in Last(r).l.processings
    ensures Last(r).l.processings[1].attempts == n && Last(r).l.processings[1].maxAttempts == max
    ensures SendCount(r.steps, |r.steps|, 1) == n
    decreases n
  {
    if n == 1 {
      var r0 := FirstClaim(60000, max, NoColumn);
      assert SendCount(r0.steps, 3, 1) == SendCount(r0.steps, 2, 1) == SendCount(r0.steps, 1, 1) == SendCount(r0.steps, 0, 1);
      r := SendOnce(r0);
    } else {
      var r0 := WholeBudgetIsSent(max, n - 1);
      var r1 := ClaimedOnceMore(r0);
      r := SendOnce(r1);
    }
  }

  // ----- R1 rounds -----

  /** One R1 round with a fixed deadline and no other step in between. */
  ghost predicate Round(l: Ledger, l': Ledger, deadline: Time, limit: int, picked: set<TaskId>) {
    && IsTop(Expired(l.processings, deadline), limit, ByAge(l.processings), picked)
    && picked <= l.processings.Keys && ReturnTx(l, picked) == Ok(l')
  }

  ghost predicate AreRounds(ls: seq<Ledger>, picks: seq<set<TaskId>>, deadline: Time, limit: int) {
    && |ls| == |picks| + 1
    && forall i, k :: 0 <= i && k == i + 1 && k < |ls| ==> Round(ls[i], ls[k], deadline, limit, picks[i])
  }

  lemma RoundTakes(l: Ledger, l': Ledger, deadline: Time, limit: int, picked: set<TaskId>)
    requires Round(l, l', deadline, limit, picked)
    ensures Expired(l'.processings, deadline) == Expired(l.processings, deadline) - picked
    ensures forall id :: id in l'.processings ==> id in l.processings && l'.processings[id] == l.processings[id]
  {
  }

  /** Each round removes up to `limit` of the expired rows, so k of them are gone after
      k / limit rounds, rounded up. */
  lemma {:induction false} RoundsDrain(ls: seq<Ledger>, picks: seq<set<TaskId>>, deadline: Time, limit: int)
    requires AreRounds(ls, picks, deadline, limit) && limit > 0
    ensures var k := |Expired(ls[0].processings, deadline)|;
            |Expired(ls[|picks|].processings, deadline)| == if k > |picks| * limit then k - |picks| * limit else 0
  {
    if |picks| > 0 {
      var n := |picks| - 1;
      RoundsDrain(ls[..n + 1], picks[..n], deadline, limit);
      assert Round(ls[n], ls[n + 1], deadline, limit, picks[n]);
      RoundTakes(ls[n], ls[n + 1], deadline, limit, picks[n]);
      Difference(Expired(ls[n].processings, deadline), picks[n]);
      assert (n + 1) * limit == n * limit + limit;
    }
  }

  lemma Difference<T>(s: set<T>, t: set<T>)
    requires t <= s
    ensures |s - t| == |s| - |t|
  {
    assert s == (s - t) + t;
  }

  /** What a later round picks was already there, unchanged, in an earlier one. */
  lemma {:induction false} StillThere(ls: seq<Ledger>, picks: seq<set<TaskId>>, deadline: Time, limit: int, i: nat, j: nat, id: TaskId)
    requires AreRounds(ls, picks, deadline, limit) && i <= j < |ls| && id in ls[j].processings
    ensures id in ls[i].processings && ls[i].processings[id] == ls[j].processings[id]
    decreases j - i
  {
    if i < j {
      assert Round(ls[j - 1], ls[j], deadline, limit, picks[j - 1]);
      RoundTakes(ls[j - 1], ls[j], deadline, limit, picks[j - 1]);
      StillThere(ls, picks, deadline, limit, i, j - 1, id);
    }
  }

  /** Rows leave oldest first: what an earlier round resets was claimed no later than what
      a later round resets. */
  lemma OldestFirst(ls: seq<Ledger>, picks: seq<set<TaskId>>, deadline: Time, limit: int, i: nat, j: nat, x: TaskId, y: TaskId)
    requires AreRounds(ls, picks, deadline, limit) && i < j < |picks| && x in picks[i] && y in picks[j]
    ensures x in ls[i].processings && y in ls[j].processings
    ensures ls[i].processings[x].updatedAt <= ls[j].processings[y].updatedAt
  {
    assert Round(ls[i], ls[i + 1], deadline, limit, picks[i]);
    assert Round(ls[j], ls[j + 1], deadline, limit, picks[j]);
    RoundTakes(ls[i], ls[i + 1], deadline, limit, picks[i]);
    StillThere(ls, picks, deadline, limit, i + 1, j, y);
    assert y in Expired(ls[i].processings, deadline) && y !in picks[i];
    assert ByAge(ls[i].processings)(x, y);
  }
}
