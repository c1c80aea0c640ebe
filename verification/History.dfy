/** What every sequence of ledgers linked by per-task edges satisfies, whoever made the
    moves: the attempt fence, finality, unchanging columns, and the count of moves. */
module History {
  import opened Rows
  import opened LedgerTx
  import opened TaskView

  ghost predicate IsHistory(h: seq<Ledger>) {
    && |h| > 0 && h[0] == EMPTY
    && forall i, k :: 0 <= i && k == i + 1 && k < |h| ==> Moves(h[i], h[k])
  }

  ghost predicate ClaimsAt(h: seq<Ledger>, i: nat, id: TaskId, attempt: int)
    requires i + 1 < |h|
  {
    Claims(View(h[i], id), View(h[i + 1], id)) && View(h[i + 1], id).Attempts() == attempt
  }

  ghost predicate EndsAt(h: seq<Ledger>, i: nat, id: TaskId)
    requires i + 1 < |h|
  {
    Ends(View(h[i], id), View(h[i + 1], id))
  }

  lemma EdgeAt(h: seq<Ledger>, i: nat, id: TaskId)
    requires IsHistory(h) && i + 1 < |h|
    ensures EdgeOrStay(View(h[i], id), View(h[i + 1], id))
  {
    assert Moves(h[i], h[i + 1]);
  }

  /** Facts about the past stay true. */
  lemma {:induction false} Persists(h: seq<Ledger>, i: nat, j: nat, id: TaskId)
    requires IsHistory(h) && i <= j < |h|
    ensures Later(View(h[i], id), View(h[j], id))
  {
    if i < j {
      Persists(h, i, j - 1, id);
      EdgeAt(h, j - 1, id);
      LaterByEdge(View(h[i], id), View(h[j - 1], id), View(h[j], id));
    }
  }

  /** Each attempt of a task is claimed at most once. */
  lemma ClaimedOnce(h: seq<Ledger>, i: nat, j: nat, id: TaskId, attempt: int)
    requires IsHistory(h) && i + 1 < |h| && j + 1 < |h|
    requires ClaimsAt(h, i, id, attempt) && ClaimsAt(h, j, id, attempt)
    ensures i == j
  {
    if i < j { Persists(h, i + 1, j, id); }
    if j < i { Persists(h, j + 1, i, id); }
  }

  lemma OnlyClaimsRaiseAttempts(v: TaskView, w: TaskView)
    requires EdgeOrStay(v, w) && v.Attempts() < w.Attempts()
    ensures Claims(v, w) && w.Attempts() == v.Attempts() + 1
  {
  }

  lemma NoAttemptAtStart(h: seq<Ledger>, n: nat, id: TaskId)
    requires IsHistory(h) && n < |h| && View(h[n], id).Attempts() >= 1
    ensures n > 0
  {
  }

  /** Attempts are claimed without gaps: a task at attempt n has been claimed for each of 1..n. */
  lemma {:induction false} EveryAttemptWasClaimed(h: seq<Ledger>, n: nat, id: TaskId, attempt: int) returns (i: nat)
    requires IsHistory(h) && n < |h| && 1 <= attempt <= View(h[n], id).Attempts()
    ensures i < n && ClaimsAt(h, i, id, attempt)
  {
    NoAttemptAtStart(h, n, id);
    EdgeAt(h, n - 1, id);
    if attempt <= View(h[n - 1], id).Attempts() {
      i := EveryAttemptWasClaimed(h, n - 1, id, attempt);
    } else {
      OnlyClaimsRaiseAttempts(View(h[n - 1], id), View(h[n], id));
      i := n - 1;
    }
  }

  /** At most one terminal move takes effect per task, and nothing changes it afterwards. */
  lemma EndedOnce(h: seq<Ledger>, i: nat, j: nat, id: TaskId)
    requires IsHistory(h) && i + 1 < |h| && EndsAt(h, i, id)
    ensures j + 1 < |h| && EndsAt(h, j, id) ==> i == j
    ensures i < j < |h| ==> View(h[j], id) == View(h[i + 1], id)
  {
    if i < j < |h| { Persists(h, i + 1, j, id); }
    if j < i && EndsAt(h, j, id) { Persists(h, j + 1, i, id); }
  }

  /** A completed row has the public columns its task was created with, its result the
      payload it was created with and the final attempt. */
  lemma EndsAsCreated(h: seq<Ledger>, i: nat, j: nat, id: TaskId)
    requires IsHistory(h) && i <= j < |h|
    requires View(h[i], id).Pending? && View(h[j], id).Ended?
    ensures View(h[j], id).completed.Public() == View(h[i], id).pending.Public()
    ensures View(h[j], id).result.payload == View(h[i], id).payload
    ensures View(h[j], id).result.attempt == View(h[j], id).completed.attempts >= 1
  {
    Persists(h, i, j, id);
    FinalAttempt(h, j, id);
  }

  lemma {:induction false} FinalAttempt(h: seq<Ledger>, j: nat, id: TaskId)
    requires IsHistory(h) && j < |h|
    ensures View(h[j], id).Ended? ==> View(h[j], id).result.attempt == View(h[j], id).completed.attempts >= 1
    ensures View(h[j], id).Processing? ==> View(h[j], id).proc.attempts >= 1
    ensures View(h[j], id).Schedulable? ==> View(h[j], id).sched.attempts >= 0
  {
    if j > 0 {
      FinalAttempt(h, j - 1, id);
      EdgeAt(h, j - 1, id);
    }
  }

  // ----- counting moves -----

  /** Ledger moves of one task in the first n steps, its creation not counted. */
  ghost function MoveCount(h: seq<Ledger>, n: nat, id: TaskId): nat
    requires n < |h|
  {
    if n == 0 then 0
    else MoveCount(h, n - 1, id)
         + if View(h[n - 1], id) != View(h[n], id) && !View(h[n - 1], id).Unknown? then 1 else 0
  }

  lemma {:induction false} MovesArePhase(h: seq<Ledger>, n: nat, id: TaskId)
    requires IsHistory(h) && n < |h|
    ensures MoveCount(h, n, id) == if View(h[n], id).Unknown? then 0 else View(h[n], id).Phase()
  {
    if n > 0 {
      MovesArePhase(h, n - 1, id);
      EdgeAt(h, n - 1, id);
      if View(h[n - 1], id) != View(h[n], id) { EdgeRaisesPhase(View(h[n - 1], id), View(h[n], id)); }
    }
  }

  /** Some claim in the first n steps takes a row that has already used up its budget and more. */
  ghost predicate ReclaimsOverBudget(h: seq<Ledger>, n: nat, id: TaskId, max: int)
    requires n < |h|
  {
    exists i :: 0 <= i < n && ClaimsAt(h, i, id, View(h[i], id).Attempts() + 1) && View(h[i], id).Attempts() > max
  }

  /** A task makes at most 2·max+3 moves as long as no row beyond its budget is claimed
      again, and only then: the scheduler must bury such a row before it is returned. */
  lemma MoveBudgetIff(h: seq<Ledger>, n: nat, id: TaskId, max: int)
    requires IsHistory(h) && n < |h| && max >= 0
    ensures MoveCount(h, n, id) <= 2 * max + 3 <==> !ReclaimsOverBudget(h, n, id, max)
  {
    MovesArePhase(h, n, id);
    FinalAttempt(h, n, id);
    if View(h[n], id).Attempts() > max + 1 {
      var i := EveryAttemptWasClaimed(h, n, id, max + 2);
      assert ClaimsAt(h, i, id, View(h[i], id).Attempts() + 1);
    }
    if ReclaimsOverBudget(h, n, id, max) {
      var i :| 0 <= i < n && ClaimsAt(h, i, id, View(h[i], id).Attempts() + 1) && View(h[i], id).Attempts() > max;
      Persists(h, i + 1, n, id);
    }
  }

  /** In the first n steps a row in flight beyond its budget, if moved at all, is ended. */
  ghost predicate OverBudgetOnlyEnds(h: seq<Ledger>, n: nat, id: TaskId, max: int)
    requires n < |h|
  {
    forall k :: 0 <= k < n ==> OnlyEndsAt(h, k, id, max)
  }

  ghost predicate OnlyEndsAt(h: seq<Ledger>, k: nat, id: TaskId, max: int)
    requires k + 1 < |h|
  {
    View(h[k], id).Processing? && View(h[k], id).proc.attempts > max ==>
      View(h[k + 1], id) == View(h[k], id) || EndsAt(h, k, id)
  }

  lemma {:induction false} StaysOrEnds(h: seq<Ledger>, j: nat, i: nat, n: nat, id: TaskId, max: int)
    requires IsHistory(h) && j <= i <= n < |h| && OverBudgetOnlyEnds(h, n, id, max)
    requires View(h[j], id).Processing? && View(h[j], id).proc.attempts > max
    ensures View(h[i], id) == View(h[j], id) || View(h[i], id).Ended?
  {
    if j < i {
      StaysOrEnds(h, j, i - 1, n, id, max);
      assert OnlyEndsAt(h, i - 1, id, max);
      EdgeAt(h, i - 1, id);
    }
  }

  /** If a row beyond its budget is buried before anything else moves it, whatever happens
      to other tasks in between, the task makes at most 2·max+3 moves. */
  lemma BuriedFirstBoundsMoves(h: seq<Ledger>, n: nat, id: TaskId, max: int)
    requires IsHistory(h) && n < |h| && max >= 0 && OverBudgetOnlyEnds(h, n, id, max)
    ensures MoveCount(h, n, id) <= 2 * max + 3
  {
    MoveBudgetIff(h, n, id, max);
    forall i: nat | i < n && View(h[i], id).Attempts() > max ensures !ClaimsAt(h, i, id, View(h[i], id).Attempts() + 1) {
      var j := EveryAttemptWasClaimed(h, i, id, View(h[i], id).Attempts());
      StaysOrEnds(h, j + 1, i, n, id, max);
    }
  }
}
