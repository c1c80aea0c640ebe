/** The three drivers of the ledger: the collector of results, the scheduling cycle and
    the reconciler. Each is proved to run exactly the transactions of the protocol. */
module Actors {
  import opened Wrappers
  import opened Rows
  import opened LedgerTx
  import opened Query
  import opened Orders
  import opened LedgerStore
  import opened Collect
  import opened Seqs

  // ----- collector -----

  class Collector {
    const ledger: Store

    constructor (ledger: Store)
      ensures this.ledger == ledger
    {
      this.ledger := ledger;
    }

    static function Report(tx: Tx<Ledger>): Result<(), DbError> {
      match TerminalOutcome(tx)
      case Ok(_) => Ok(())
      case Err(e) => Err(e)
    }

    /** `handled`: the result was requeued, buried or ignored and must not be completed. */
    method Retry(ev: ResultEvent, nextId: TaskId, now: Time, readFails: bool)
      returns (handled: bool, r: Result<(), DbError>)
      modifies ledger
      ensures var d := if readFails then PassOn else Decide(old(ledger.Tables()), ev);
              if d.PassOn? then !handled && r == Ok(()) && ledger.Tables() == old(ledger.Tables())
              else var tx := CarryOut(old(ledger.Tables()), ev, d, nextId, now);
                   handled && r == Report(tx) && ledger.Tables() == Commit(old(ledger.Tables()), tx)
    {
      var p := ledger.GetProcessing(ev.taskId);
      if readFails || p.None? { return false, Ok(()); }
      if p.value.attempts != ev.attempt { return true, Ok(()); }
      var done: Tx<bool>;
      if p.value.maxAttempts > 0 && p.value.attempts >= p.value.maxAttempts {
        done := ledger.DeadLetter(nextId, ev.taskId, now);
      } else {
        done := ledger.Requeue(ev.taskId);
      }
      return true, match done case Ok(_) => Ok(()) case Err(e) => Err(e);
    }

    method Consume(ev: ResultEvent, nextId: TaskId, now: Time, readFails: bool) returns (r: Result<(), DbError>)
      modifies ledger
      ensures var tx := ConsumeTx(old(ledger.Tables()), ev, nextId, now, readFails);
              ledger.Tables() == Commit(old(ledger.Tables()), tx) && r == Report(tx)
      ensures var tx := ConsumeTx(old(ledger.Tables()), ev, nextId, now, readFails);
              r == match tx case Err(Constraint) => Err(Constraint) case _ => Ok(())
    {
      if ev.taskId == 0 { return Err(Constraint); }
      var outcome := OutcomeOf(ev.outcome);
      if outcome == Failed {
        var handled, done := Retry(ev, nextId, now, readFails);
        if handled { return done; }
      }
      var completedAt := if ev.finishedUnixMs > 0 then ev.finishedUnixMs else now;
      var result := if ev.result == "" then None else Some(ev.result);
      var ok := ledger.Complete(nextId, CompleteRequest(ev.taskId, ev.attempt, outcome, result, ev.error, Some(completedAt)), now);
      r := match ok case Ok(_) => Ok(()) case Err(e) => Err(e);
    }
  }

  // ----- scheduling cycle -----

  const DEFAULT_BATCH := 500

  datatype CycleResult = CycleResult(promoted: int, claimed: int, dispatched: int, skipped: int, cancelled: bool)

  /** Which rows a round promoted, claimed, looked at and sent. */
  datatype RoundLog = RoundLog(promoted: set<TaskId>, picked: set<TaskId>, rows: seq<Claimed>,
                               seen: seq<Claimed>, sent: seq<Claimed>)

  /** The ledger after a scheduler went through these claimed rows in order. */
  function DispatchAll(l: Ledger, rows: seq<Claimed>, nextIds: nat -> TaskId, now: Time): Ledger {
    if rows == [] then l
    else var n := |rows| - 1;
         var before := DispatchAll(l, rows[..n], nextIds, now);
         Commit(before, DispatchTx(before, rows[n], nextIds(n), now))
  }

  /** The rows such a scheduler sends on the way: within budget, with a payload at their
      turn, and accepted by the dispatcher. */
  function Sent(l: Ledger, rows: seq<Claimed>, nextIds: nat -> TaskId, now: Time, accepts: Claimed -> bool): seq<Claimed> {
    if rows == [] then []
    else var n := |rows| - 1;
         var c := rows[n];
         Sent(l, rows[..n], nextIds, now, accepts)
         + if !OverBudget(c) && c.taskId in DispatchAll(l, rows[..n], nextIds, now).payloads && accepts(c) then [c] else []
  }

  ghost predicate Distinct(rows: seq<Claimed>) {
    forall j, k :: 0 <= j < k < |rows| ==> rows[j].taskId != rows[k].taskId
  }

  /** The last turn: beyond its budget a row gets a dead letter and is not sent; within it the
      tables stay and it is sent if its payload is there and the dispatcher accepts. */
  lemma LastTurn(l: Ledger, rows: seq<Claimed>, c: Claimed, nextIds: nat -> TaskId, now: Time, accepts: Claimed -> bool)
    requires Distinct(rows + [c])
    ensures var before := DispatchAll(l, rows, nextIds, now);
            && (c in Sent(l, rows + [c], nextIds, now, accepts) <==>
                  c.row.attempts <= c.row.maxAttempts && c.taskId in before.payloads && accepts(c))
            && DispatchAll(l, rows + [c], nextIds, now)
               == if c.row.attempts <= c.row.maxAttempts then before else Commit(before, DeadLetterTx(before, nextIds(|rows|), c.taskId, now))
  {
    DropOfConcat(rows, [c]);
    SentFrom(l, rows, nextIds, now, accepts, c);
    assert c !in rows by {
      forall k | 0 <= k < |rows| ensures rows[k] != c { assert (rows + [c])[k] == rows[k] && (rows + [c])[|rows|] == c; }
    }
  }

  lemma EarlierTurn(l: Ledger, rows: seq<Claimed>, last: Claimed, nextIds: nat -> TaskId, now: Time, accepts: Claimed -> bool, c: Claimed)
    requires c != last
    ensures c in Sent(l, rows + [last], nextIds, now, accepts) <==> c in Sent(l, rows, nextIds, now, accepts)
  {
    DropOfConcat(rows, [last]);
  }

  /** The same of every row's turn. */
  lemma {:induction false} SentIff(l: Ledger, rows: seq<Claimed>, nextIds: nat -> TaskId, now: Time, accepts: Claimed -> bool, i: nat)
    requires i < |rows| && Distinct(rows)
    ensures var c, before := rows[i], DispatchAll(l, rows[..i], nextIds, now);
            && (c in Sent(l, rows, nextIds, now, accepts) <==>
                  c.row.attempts <= c.row.maxAttempts && c.taskId in before.payloads && accepts(c))
            && DispatchAll(l, rows[..i + 1], nextIds, now)
               == if c.row.attempts <= c.row.maxAttempts then before else Commit(before, DeadLetterTx(before, nextIds(i), c.taskId, now))
    decreases |rows|
  {
    var n := |rows| - 1;
    assert rows == rows[..n] + [rows[n]];
    if i < n {
      SentIff(l, rows[..n], nextIds, now, accepts, i);
      TakeTake(rows, n, i);
      TakeTake(rows, n, i + 1);
      EarlierTurn(l, rows[..n], rows[n], nextIds, now, accepts, rows[i]);
    } else {
      LastTurn(l, rows[..n], rows[n], nextIds, now, accepts);
      assert rows[..i + 1] == rows;
    }
  }

  lemma {:induction false} SentFrom(l: Ledger, rows: seq<Claimed>, nextIds: nat -> TaskId, now: Time, accepts: Claimed -> bool, c: Claimed)
    ensures c in Sent(l, rows, nextIds, now, accepts) ==> c in rows
    decreases |rows|
  {
    if rows != [] { SentFrom(l, rows[..|rows| - 1], nextIds, now, accepts, c); }
  }

  class LedgerCycle {
    const ledger: Store
    const promoteLimit: int
    const claimBatch: int

    constructor (ledger: Store, promoteLimit: int, claimBatch: int)
      ensures this.ledger == ledger
      ensures this.claimBatch == if claimBatch > 0 then claimBatch else DEFAULT_BATCH
      ensures this.promoteLimit == if promoteLimit > 0 then promoteLimit else this.claimBatch
    {
      this.ledger := ledger;
      this.promoteLimit := if promoteLimit > 0 then promoteLimit else if claimBatch > 0 then claimBatch else DEFAULT_BATCH;
      this.claimBatch := if claimBatch > 0 then claimBatch else DEFAULT_BATCH;
    }

    /** Buries or sends the claimed rows in order. `accepts` is the dispatcher's answer,
        `budget` the number of rows looked at before the context is cancelled. */
    method DispatchRows(rows: seq<Claimed>, now: Time, nextIds: nat -> TaskId, accepts: Claimed -> bool, budget: nat)
      returns (dispatched: nat, skipped: nat, ghost sent: seq<Claimed>)
      modifies ledger
      ensures var k := if budget < |rows| then budget else |rows|;
              && ledger.Tables() == DispatchAll(old(ledger.Tables()), rows[..k], nextIds, now)
              && dispatched == |sent| && dispatched + skipped == k
              && sent == Sent(old(ledger.Tables()), rows[..k], nextIds, now, accepts)
    {
      dispatched, skipped, sent := 0, 0, [];
      var i := 0;
      while i < |rows| && i < budget
        invariant 0 <= i <= |rows| && i <= budget
        invariant ledger.Tables() == DispatchAll(old(ledger.Tables()), rows[..i], nextIds, now)
        invariant dispatched == |sent| && dispatched + skipped == i
        invariant sent == Sent(old(ledger.Tables()), rows[..i], nextIds, now, accepts)
        decreases |rows| - i
      {
        var c := rows[i];
        assert rows[..i + 1][..i] == rows[..i] && rows[..i + 1][i] == c;
        if OverBudget(c) {
          var _ := ledger.DeadLetter(nextIds(i), c.taskId, now);
          skipped := skipped + 1;
        } else {
          var payload := ledger.GetPayload(c.taskId);
          if payload.None? || !accepts(c) {
            skipped := skipped + 1;
          } else {
            dispatched := dispatched + 1;
            sent := sent + [c];
          }
        }
        i := i + 1;
      }
    }

    /** What one round of promoting and claiming did. */
    static ghost predicate PromotesAndClaims(l: Ledger, l': Ledger, promoted: set<TaskId>, picked: set<TaskId>,
                                    rows: seq<Claimed>, now: Time)
    {
      && promoted <= l.pendings.Keys && PromoteTx(l, promoted).Ok?
      && var l1 := PromoteTx(l, promoted).value;
      && picked <= l1.schedulables.Keys
      && ClaimTx(l1, picked, now) == Ok(l')
      && Store.Returning(rows, picked, ClaimedRows(l1, picked, now))
    }

    method PromoteAndClaim(locked: set<TaskId>, now: Time)
      returns (r: Tx<(nat, seq<Claimed>)>, ghost promoted: set<TaskId>, ghost picked: set<TaskId>)
      modifies ledger
      ensures IsTop(old(ledger.pendings).Keys - locked, promoteLimit, ByPriority(old(ledger.pendings)), promoted)
      ensures r.Ok? ==> r.value.0 == |promoted| && |r.value.1| == |picked|
                        && PromotesAndClaims(old(ledger.Tables()), ledger.Tables(), promoted, picked, r.value.1, now)
      ensures r.Err? ==> ledger.Tables() == Commit(old(ledger.Tables()), PromoteTx(old(ledger.Tables()), promoted))
    {
      picked := {};
      var n;
      n, promoted := ledger.Promote(promoteLimit, locked);
      if n.Err? { return Err(n.error), promoted, picked; }
      var claimed;
      claimed, picked := ledger.Claim(claimBatch, locked, now);
      if claimed.Err? { return Err(claimed.error), promoted, picked; }
      return Ok((n.value, claimed.value)), promoted, picked;
    }

    /** A row looked at is sent exactly when its attempts do not exceed its budget, its payload
        is there at its turn, and the dispatcher accepts it. */
    static ghost predicate SendsInBudget(l2: Ledger, round: RoundLog, nextIds: nat -> TaskId, now: Time, accepts: Claimed -> bool) {
      forall i :: 0 <= i < |round.seen| ==>
        var c := round.seen[i];
        c in round.sent <==> c.row.attempts <= c.row.maxAttempts
                             && c.taskId in DispatchAll(l2, round.seen[..i], nextIds, now).payloads && accepts(c)
    }

    static lemma RoundSendsInBudget(l2: Ledger, round: RoundLog, nextIds: nat -> TaskId, now: Time, accepts: Claimed -> bool)
      requires round.sent == Sent(l2, round.seen, nextIds, now, accepts)
      requires Distinct(round.seen)
      ensures SendsInBudget(l2, round, nextIds, now, accepts)
    {
      forall i | 0 <= i < |round.seen|
        ensures var c := round.seen[i];
                c in round.sent <==> c.row.attempts <= c.row.maxAttempts
                                     && c.taskId in DispatchAll(l2, round.seen[..i], nextIds, now).payloads && accepts(c)
      {
        SentIff(l2, round.seen, nextIds, now, accepts, i);
      }
    }

    /** One round: promote, claim, then bury or send each claimed row. A round that fails has
        promoted at most. */
    method RunOnce(locked: set<TaskId>, now: Time, nextIds: nat -> TaskId, accepts: Claimed -> bool, budget: nat)
      returns (r: Tx<CycleResult>, ghost round: RoundLog)
      modifies ledger
      ensures r.Ok? ==>
                exists l2 :: PromotesAndClaims(old(ledger.Tables()), l2, round.promoted, round.picked, round.rows, now)
                             && ledger.Tables() == DispatchAll(l2, round.seen, nextIds, now)
                             && round.sent == Sent(l2, round.seen, nextIds, now, accepts)
                             && SendsInBudget(l2, round, nextIds, now, accepts)
      ensures r.Ok? ==> round.seen == round.rows[..if budget < |round.rows| then budget else |round.rows|]
      ensures r.Ok? ==> r.value == CycleResult(|round.promoted|, |round.picked|, |round.sent|,
                                               |round.seen| - |round.sent|, budget < |round.rows|)
      ensures r.Err? ==> round.promoted <= old(ledger.pendings).Keys
                         && ledger.Tables() == Commit(old(ledger.Tables()), PromoteTx(old(ledger.Tables()), round.promoted))
    {
      var both;
      ghost var promoted, picked;
      both, promoted, picked := PromoteAndClaim(locked, now);
      if both.Err? { return Err(both.error), RoundLog(promoted, picked, [], [], []); }
      var rows := both.value.1;
      ghost var l2 := ledger.Tables();
      var dispatched, skipped;
      ghost var sent;
      dispatched, skipped, sent := DispatchRows(rows, now, nextIds, accepts, budget);
      r := Ok(CycleResult(both.value.0, |rows|, dispatched, skipped, budget < |rows|));
      round := RoundLog(promoted, picked, rows, rows[..if budget < |rows| then budget else |rows|], sent);
      RoundSendsInBudget(l2, round, nextIds, now, accepts);
      assert PromotesAndClaims(old(ledger.Tables()), l2, promoted, picked, rows, now);
    }
  }

  // ----- reconciler -----

  class Reconciler {
    const ledger: Store
    const grace: Time
    const skew: Time
    const limit: int
    const every: int
    const purges: bool
    var rounds: nat

    /** Durations in milliseconds; `purges` says whether a view to clean is configured. */
    constructor (ledger: Store, grace: Time, skew: Time, limit: int, every: int, purges: bool)
      ensures this.ledger == ledger && this.purges == purges && rounds == 0
      ensures this.grace == (if grace <= 0 then 90_000 else grace) && this.skew == if skew < 0 then 0 else skew
      ensures this.limit == (if limit <= 0 then 500 else limit) && this.every == if every <= 0 then 30 else every
    {
      this.ledger := ledger;
      this.grace := if grace <= 0 then 90_000 else grace;
      this.skew := if skew < 0 then 0 else skew;
      this.limit := if limit <= 0 then 500 else limit;
      this.every := if every <= 0 then 30 else every;
      this.purges := purges;
      rounds := 0;
    }

    /** One R1 round. It resets rows last claimed more than grace + skew ago, oldest first
        and no more than the limit; a failed round counts neither as a round nor purges. */
    method RunOnce(now: Time, locked: set<TaskId>) returns (r: Tx<nat>, purge: bool, ghost picked: set<TaskId>)
      requires every > 0
      modifies this`rounds, ledger
      ensures IsTop(Expired(old(ledger.processings), now - (grace + skew)) - locked, limit,
                    ByAge(old(ledger.processings)), picked)
      ensures OldestOverdue(old(ledger.processings), now - (grace + skew), limit, locked, picked)
      ensures forall id :: id in picked ==> id in old(ledger.processings) && Due(old(ledger.processings)[id], grace + skew, now)
      ensures forall id :: id in picked && old(ledger.processings)[id].timeoutMs <= grace ==>
                DueAsDocumented(old(ledger.processings)[id], grace, skew, now)
      ensures var tx := ReturnTx(old(ledger.Tables()), picked);
              && ledger.Tables() == Commit(old(ledger.Tables()), tx)
              && (if tx.Ok? then r == Ok(|picked|) && rounds == old(rounds) + 1 && (purge <==> purges && rounds % every == 0)
                  else r.Err? && rounds == old(rounds) && !purge)
    {
      var deadline := now - (grace + skew);
      r, picked := ledger.ResetExpired(deadline, limit, locked);
      purge := false;
      if r.Ok? {
        rounds := rounds + 1;
        purge := purges && rounds % every == 0;
      }
    }
  }
}
