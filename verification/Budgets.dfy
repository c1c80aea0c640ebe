/** How many moves a task makes: the bound that whole scheduling rounds give, and the task
    they never get rid of. */
module Budgets {
  import opened Wrappers
  import opened Rows
  import opened LedgerTx
  import opened TaskView
  import opened Collect
  import opened Protocol
  import opened History
  import opened Runs
  import opened Races

  // ----- the callback that can never be created -----

  const BAD_TASK := CallbackTask("cb", "", 0, "", "", "", "", 300, 0, 0, "", "", None, [], "", "", "")
  const BAD_CALLBACK := Encoded(CallbackSpec(None, Some(BAD_TASK)))

  /** A task whose on_error callback asks for hash bucket 300, at attempt n + 1 of `max`. */
  ghost predicate Poisoned(l: Ledger, p: ProcessingRow, max: int, n: nat) {
    && p.attempts == n + 1 && p.maxAttempts == max && p.callback == BAD_CALLBACK && p.parentTaskId == 0
    && l.identities.Keys == {1} && l.identities[1].key == "k" && l.completeds == map[]
  }

  /** ... claimed, and held by a scheduler that is about to handle it. */
  ghost predicate Stuck(s: Sys, max: int, n: nat) {
    && 1 in s.l.processings && Poisoned(s.l, s.l.processings[1], max, n)
    && Claimed(1, s.l.processings[1]) in s.work
  }

  lemma PoisonedUnfit(l: Ledger, max: int, n: nat, now: Time)
    requires 1 in l.processings && Poisoned(l, l.processings[1], max, n)
    ensures !DerivationFits(Finish(l, 1, Dead, None, "", now), 2, 1, l.processings[1], Dead)
  {
    var p, after := l.processings[1], Finish(l, 1, Dead, None, "", now);
    assert Wanted(p, Dead) == Some(BAD_TASK);
    assert DepthFrom(after.completeds, 1, 0) == 0;
    KeyDiffers(p.attempts);
    assert !KeyTaken(after, DerivedKey(BAD_TASK, 1, p.attempts, Dead));
  }

  /** Its dead letter fails. */
  lemma BurialFails(l: Ledger, max: int, n: nat, now: Time)
    requires Inv(l) && 1 in l.processings && Poisoned(l, l.processings[1], max, n)
    ensures DeadLetterTx(l, 2, 1, now) == Err(Constraint)
  {
    TerminalStep(l, 2, 1, None, Dead, None, "", now);
    PoisonedUnfit(l, max, n, now);
  }

  lemma KeyDiffers(attempts: int)
    ensures DefaultKey(1, attempts, Dead) != "k"
  {
    assert |DefaultKey(1, attempts, Dead)| > 1;
  }

  /** Handling it changes nothing, within its budget or beyond. */
  lemma HandleStuck(r: Run, max: int, n: nat) returns (r': Run)
    requires IsRun(r) && SysInv(Last(r)) && Stuck(Last(r), max, n)
    ensures IsRun(r') && SysInv(Last(r')) && Last(r').l == Last(r).l && Last(r').now == Last(r).now && Continues(r, r')
    ensures r'.steps == r.steps + [Dispatch(Claimed(1, Last(r).l.processings[1]), 2, false)]
  {
    BurialFails(Last(r).l, max, n, Last(r).now);
    r' := Extend(r, Dispatch(Claimed(1, Last(r).l.processings[1]), 2, false));
  }

  lemma ClaimAgain(r: Run) returns (r': Run)
    requires IsRun(r) && SysInv(Last(r)) && 1 in Last(r).l.schedulables
    ensures IsRun(r') && SysInv(Last(r')) && r'.steps == r.steps + [Claim({1})] && Continues(r, r')
    ensures 1 in Last(r').l.processings && Last(r').l.processings[1] == ClaimedRow(Last(r).l.schedulables[1], Last(r).now)
    ensures Last(r').l.identities == Last(r).l.identities && Last(r').l.completeds == Last(r).l.completeds
    ensures Claimed(1, Last(r').l.processings[1]) in Last(r').work
  {
    ClaimStep(Last(r).l, {1}, Last(r).now);
    r' := Extend(r, Claim({1}));
  }

  // ----- scheduling rounds nothing cuts into -----

  ghost predicate InFlightAs(l: Ledger, c: Claimed) {
    c.taskId in l.processings && l.processings[c.taskId] == c.row
  }

  ghost predicate Holds(rows: seq<Claimed>, id: TaskId) {
    exists j :: 0 <= j < |rows| && rows[j].taskId == id
  }

  /** The claim at step i is followed by the handling of its rows, one after another, as far
      as the run goes. */
  ghost predicate RoundAt(r: Run, i: nat, rows: seq<Claimed>)
    requires |r.states| == |r.steps| + 1 && i < |r.steps| && r.steps[i].Claim?
  {
    && (forall id :: id in r.steps[i].ids ==> Holds(rows, id))
    && (forall j :: 0 <= j < |rows| ==> InFlightAs(r.states[i + 1].l, rows[j]))
    && forall j :: 0 <= j < |rows| && i + 1 + j < |r.steps| ==> HandledAt(r.steps, i + 1 + j, rows[j])
  }

  ghost predicate HandledAt(steps: seq<Step>, k: nat, c: Claimed)
    requires k < |steps|
  {
    steps[k].Dispatch? && steps[k].c == c
  }

  ghost predicate UncutRounds(r: Run)
    requires |r.states| == |r.steps| + 1
  {
    forall i :: 0 <= i < |r.steps| && r.steps[i].Claim? ==> exists rows :: RoundAt(r, i, rows)
  }

  /** Every claim takes task 1 alone, and what it took is handled at once. */
  ghost predicate HandlesAtOnce(r: Run)
    requires |r.states| == |r.steps| + 1
  {
    forall i :: 0 <= i < |r.steps| && r.steps[i].Claim? ==>
      && r.steps[i].ids == {1} && 1 in r.states[i + 1].l.processings
      && (i + 1 < |r.steps| ==> HandledAt(r.steps, i + 1, Claimed(1, r.states[i + 1].l.processings[1])))
  }

  lemma AtOnceIsUncut(r: Run)
    requires IsRun(r) && HandlesAtOnce(r)
    ensures UncutRounds(r)
  {
    forall i | 0 <= i < |r.steps| && r.steps[i].Claim? ensures exists rows :: RoundAt(r, i, rows) {
      var rows := [Claimed(1, r.states[i + 1].l.processings[1])];
      assert rows[0].taskId == 1;
      assert RoundAt(r, i, rows);
    }
  }

  lemma CycleHandlesAtOnce(r: Run, r': Run, t: Time)
    requires IsRun(r) && IsRun(r') && Continues(r, r') && HandlesAtOnce(r) && 1 in Last(r).l.processings
    requires r'.steps == r.steps + [Dispatch(Claimed(1, Last(r).l.processings[1]), 2, false), Tick(t), Reset({1}, 0), Claim({1})]
    requires 1 in Last(r').l.processings
    ensures HandlesAtOnce(r')
  {
    var n := |r.steps|;
    forall i | 0 <= i < |r'.steps| && r'.steps[i].Claim?
      ensures r'.steps[i].ids == {1} && 1 in r'.states[i + 1].l.processings
      ensures i + 1 < |r'.steps| ==> HandledAt(r'.steps, i + 1, Claimed(1, r'.states[i + 1].l.processings[1]))
    {
      if i < n {
        assert r'.steps[i] == r.steps[i] && r'.states[i + 1] == r.states[i + 1];
      }
    }
  }

  lemma StuckCycle(r: Run, max: int, n: nat) returns (r': Run)
    requires IsRun(r) && SysInv(Last(r)) && Stuck(Last(r), max, n) && HandlesAtOnce(r)
    ensures IsRun(r') && SysInv(Last(r')) && Stuck(Last(r'), max, n + 1) && HandlesAtOnce(r')
  {
    var p, now := Last(r).l.processings[1], Last(r).now;
    var t := if p.updatedAt < now then now else p.updatedAt + 1;
    var r1 := HandleStuck(r, max, n);
    var r2 := Wait(r1, t);
    var r3 := LateReset(r2, 0);
    r' := ClaimAgain(r3);
    CycleHandlesAtOnce(r, r', t);
  }

  lemma StuckMoves(r: Run, max: int, n: nat)
    requires IsRun(r) && SysInv(Last(r)) && Stuck(Last(r), max, n)
    ensures MoveCount(Ledgers(r), |r.steps|, 1) == 2 * (n + 1)
  {
    assert IdOk(Last(r).l, 1);
    RunIsHistory(r);
    MovesArePhase(Ledgers(r), |r.steps|, 1);
  }

  /** For every budget there are runs of uncut rounds with any number of moves of one task: a
      bucket outside 0..255 keeps it from ever ending. */
  lemma {:induction false} BadBucketNeverEnds(max: int, n: nat) returns (r: Run)
    ensures IsRun(r) && SysInv(Last(r)) && Stuck(Last(r), max, n) && HandlesAtOnce(r) && UncutRounds(r)
    ensures MoveCount(Ledgers(r), |r.steps|, 1) == 2 * (n + 1)
  {
    if n == 0 {
      r := FirstClaim(60000, max, BAD_CALLBACK);
    } else {
      var r0 := BadBucketNeverEnds(max, n - 1);
      r := StuckCycle(r0, max, n - 1);
    }
    AtOnceIsUncut(r);
    StuckMoves(r, max, n);
  }

  // ----- rounds that do end what is over budget -----

  /** Whatever dead letter a scheduler writes for this task, its callback can be created. */
  ghost predicate BurialsFit(r: Run, id: TaskId)
    requires |r.states| == |r.steps| + 1
  {
    forall k :: 0 <= k < |r.steps| ==> BurialFits(r.states[k], r.steps[k], id)
  }

  ghost predicate BurialFits(s: Sys, step: Step, id: TaskId) {
    step.Dispatch? && step.c.taskId == id && InFlightAs(s.l, step.c) && OverBudget(step.c) ==>
      DerivationFits(Finish(s.l, id, Dead, None, "", s.now), step.nextId, id, step.c.row, Dead)
  }

  lemma BurialEnds(r: Run, k: nat, id: TaskId)
    requires IsRun(r) && k < |r.steps| && r.steps[k].Dispatch? && r.steps[k].c.taskId == id
    requires InFlightAs(r.states[k].l, r.steps[k].c) && OverBudget(r.steps[k].c) && BurialFits(r.states[k], r.steps[k], id)
    ensures EndsAt(Ledgers(r), k, id)
  {
    InvAt(r, k);
    StepAt(r, k);
    Runs.Ended(r.states[k].l, r.steps[k].nextId, id, None, Dead, None, "", r.states[k].now);
    TerminalStep(r.states[k].l, r.steps[k].nextId, id, None, Dead, None, "", r.states[k].now);
  }

  /** Handling another row does not move a task that exists. */
  lemma OtherHandled(r: Run, k: nat, id: TaskId)
    requires IsRun(r) && k < |r.steps| && r.steps[k].Dispatch? && r.steps[k].c.taskId != id
    requires !View(r.states[k].l, id).Unknown?
    ensures View(r.states[k + 1].l, id) == View(r.states[k].l, id)
  {
    InvAt(r, k);
    StepAt(r, k);
    var s, c, nextId := r.states[k], r.steps[k].c, r.steps[k].nextId;
    var tx := DeadLetterTx(s.l, nextId, c.taskId, s.now);
    TerminalStep(s.l, nextId, c.taskId, None, Dead, None, "", s.now);
    if tx.Ok? { EndsTaskMoves(s.l, tx.value, nextId, c.taskId, Dead); }
  }

  /** Within its round a row over budget stays put until its own turn, and ends in it. */
  lemma RoundEnds(r: Run, i: nat, rows: seq<Claimed>, k: nat, id: TaskId, max: int)
    requires IsRun(r) && i < k < |r.steps| && r.steps[i].Claim? && id in r.steps[i].ids && RoundAt(r, i, rows)
    requires BurialsFit(r, id) && View(r.states[i + 1].l, id).Processing?
    requires View(r.states[k].l, id) == View(r.states[i + 1].l, id)
    requires View(r.states[i + 1].l, id).proc.attempts > max == View(r.states[i + 1].l, id).proc.maxAttempts
    ensures OnlyEndsAt(Ledgers(r), k, id, max)
  {
    var h := Ledgers(r);
    InvAt(r, i + 1);
    InvAt(r, k);
    assert IdOk(h[i + 1], id) && IdOk(h[k], id);
    if k - i - 1 < |rows| {
      var c := rows[k - i - 1];
      assert HandledAt(r.steps, k, c) && InFlightAs(h[i + 1], c);
      if c.taskId == id {
        assert BurialFits(r.states[k], r.steps[k], id);
        BurialEnds(r, k, id);
      } else {
        OtherHandled(r, k, id);
      }
    } else {
      assert Holds(rows, id);
      var j :| 0 <= j < |rows| && rows[j].taskId == id;
      RoundOver(r, i, rows, j, k, id);
    }
  }

  /** A round that claimed the task beyond its budget. */
  ghost predicate ClaimsBeyond(r: Run, i: nat, rows: seq<Claimed>, id: TaskId) {
    && IsRun(r) && i < |r.steps| && r.steps[i].Claim? && RoundAt(r, i, rows) && BurialsFit(r, id)
    && var v := View(Ledgers(r)[i + 1], id);
       v.Processing? && v.proc.attempts > v.proc.maxAttempts
  }

  /** When the turn of such a row comes and it is still as claimed, it is buried. */
  lemma TurnBuries(r: Run, i: nat, rows: seq<Claimed>, j: nat, id: TaskId)
    requires ClaimsBeyond(r, i, rows, id) && j < |rows| && i + 1 + j < |r.steps| && rows[j].taskId == id
    requires View(Ledgers(r)[i + 1 + j], id) == View(Ledgers(r)[i + 1], id)
    ensures HandledAt(r.steps, i + 1 + j, rows[j]) && InFlightAs(r.states[i + 1 + j].l, rows[j]) && OverBudget(rows[j])
  {
    var d := i + 1 + j;
    assert HandledAt(r.steps, d, rows[j]) && InFlightAs(r.states[i + 1].l, rows[j]);
    InvAt(r, i + 1);
    InvAt(r, d);
    assert IdOk(r.states[i + 1].l, id) && IdOk(r.states[d].l, id);
  }

  lemma TurnEnds(r: Run, i: nat, rows: seq<Claimed>, j: nat, id: TaskId)
    requires ClaimsBeyond(r, i, rows, id) && j < |rows| && i + 1 + j < |r.steps| && rows[j].taskId == id
    requires View(Ledgers(r)[i + 1 + j], id) == View(Ledgers(r)[i + 1], id)
    ensures View(Ledgers(r)[i + 2 + j], id).Ended?
  {
    var d := i + 1 + j;
    TurnBuries(r, i, rows, j, id);
    assert BurialFits(r.states[d], r.steps[d], id);
    BurialEnds(r, d, id);
  }

  lemma Squeezed(h: seq<Ledger>, i: nat, d: nat, k: nat, id: TaskId)
    requires IsHistory(h) && i <= d <= k < |h| && View(h[k], id) == View(h[i], id)
    ensures View(h[d], id) == View(h[i], id)
  {
    Persists(h, i, d, id);
    Persists(h, d, k, id);
  }

  lemma EndedStays(h: seq<Ledger>, d: nat, k: nat, id: TaskId)
    requires IsHistory(h) && d < k < |h| && View(h[d + 1], id).Ended?
    ensures View(h[k], id).Ended?
  {
    Persists(h, d + 1, k, id);
  }

  /** After its round such a row is no longer in flight. */
  lemma RoundOver(r: Run, i: nat, rows: seq<Claimed>, j: nat, k: nat, id: TaskId)
    requires ClaimsBeyond(r, i, rows, id) && j < |rows| && i + 1 + j < k < |r.steps| && rows[j].taskId == id
    ensures View(Ledgers(r)[k], id) != View(Ledgers(r)[i + 1], id)
  {
    var h := Ledgers(r);
    RunIsHistory(r);
    if View(h[k], id) == View(h[i + 1], id) {
      Squeezed(h, i + 1, i + 1 + j, k, id);
      TurnEnds(r, i, rows, j, id);
      EndedStays(h, i + 1 + j, k, id);
    }
  }

  /** Runs of uncut rounds, with whatever other steps between rounds, move a task of budget
      max >= 0 at most 2·max+3 times, as long as the callbacks of its dead letters can be
      created. */
  lemma RoundsBoundMoves(r: Run, id: TaskId, max: int)
    requires IsRun(r) && max >= 0 && UncutRounds(r) && BurialsFit(r, id)
    requires View(Last(r).l, id).Public().Some? ==> View(Last(r).l, id).Public().value.maxAttempts == max
    ensures MoveCount(Ledgers(r), |r.steps|, id) <= 2 * max + 3
  {
    var h, n := Ledgers(r), |r.steps|;
    RunIsHistory(r);
    forall k | 0 <= k < n ensures OnlyEndsAt(h, k, id, max) {
      if View(h[k], id).Processing? && View(h[k], id).proc.attempts > max { OverBudgetInRound(r, k, id, max); }
    }
    BuriedFirstBoundsMoves(h, n, id, max);
  }

  lemma OverBudgetInRound(r: Run, k: nat, id: TaskId, max: int)
    requires IsRun(r) && UncutRounds(r) && BurialsFit(r, id) && k < |r.steps|
    requires View(Last(r).l, id).Public().Some? ==> View(Last(r).l, id).Public().value.maxAttempts == max
    requires View(r.states[k].l, id).Processing? && View(r.states[k].l, id).proc.attempts > max
    ensures OnlyEndsAt(Ledgers(r), k, id, max)
  {
    var h := Ledgers(r);
    RunIsHistory(r);
    Persists(h, k, |r.steps|, id);
    var i := LatestClaim(h, k, id);
    ClaimEdgeIsClaim(r, i, id, View(h[k], id).proc.attempts);
    var rows :| RoundAt(r, i, rows);
    RoundEnds(r, i, rows, k, id, max);
  }
}
