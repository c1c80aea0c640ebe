/** Whole runs of the ledger protocol: what holds at every point of every interleaving. */
module Runs {
  import opened Wrappers
  import opened Rows
  import opened LedgerTx
  import opened TaskView
  import opened Collect
  import opened Protocol
  import opened History
  import opened Sets

  datatype Run = Run(states: seq<Sys>, steps: seq<Step>)

  ghost predicate Next(s: Sys, step: Step, s': Sys) {
    Enabled(s, step) && s' == Apply(s, step)
  }

  ghost predicate IsRun(r: Run) {
    && |r.states| == |r.steps| + 1
    && r.states[0] == INIT
    && forall i, k :: 0 <= i && k == i + 1 && k < |r.states| ==> Next(r.states[i], r.steps[i], r.states[k])
  }

  ghost function Ledgers(r: Run): (h: seq<Ledger>)
    ensures |h| == |r.states| && forall i :: 0 <= i < |h| ==> h[i] == r.states[i].l
  {
    seq(|r.states|, i requires 0 <= i < |r.states| => r.states[i].l)
  }

  lemma StepAt(r: Run, i: nat)
    requires IsRun(r) && i < |r.steps|
    ensures Next(r.states[i], r.steps[i], r.states[i + 1])
  {
  }

  lemma {:induction false} InvAt(r: Run, i: nat)
    requires IsRun(r) && i < |r.states|
    ensures SysInv(r.states[i])
  {
    if i > 0 {
      InvAt(r, i - 1);
      StepAt(r, i - 1);
      StepKeepsInv(r.states[i - 1], r.steps[i - 1]);
    }
  }

  /** The ledgers of a run move every task along its automaton. */
  lemma RunIsHistory(r: Run)
    requires IsRun(r)
    ensures IsHistory(Ledgers(r))
  {
    var h := Ledgers(r);
    forall i, k | 0 <= i && k == i + 1 && k < |h| ensures Moves(h[i], h[k]) {
      InvAt(r, i);
      StepAt(r, i);
      StepKeepsInv(r.states[i], r.steps[i]);
    }
  }

  // ----- consistency of the seven tables -----

  ghost predicate Partitioned(l: Ledger) {
    && l.pendings.Keys !! l.schedulables.Keys !! l.processings.Keys !! l.completeds.Keys
    && l.identities.Keys == l.pendings.Keys + l.schedulables.Keys + l.processings.Keys + l.completeds.Keys
    && l.payloads.Keys == l.pendings.Keys + l.schedulables.Keys + l.processings.Keys
    && l.results.Keys == l.completeds.Keys
    && UniqueKeys(l)
  }

  lemma InvPartitions(l: Ledger)
    requires Inv(l)
    ensures Partitioned(l)
  {
    assert forall id :: IdOk(l, id);
    forall id ensures id in l.pendings ==> id !in l.schedulables && id !in l.processings && id !in l.completeds { assert IdOk(l, id); }
    forall id ensures id in l.schedulables ==> id !in l.processings && id !in l.completeds { assert IdOk(l, id); }
    forall id ensures id in l.processings ==> id !in l.completeds { assert IdOk(l, id); }
    forall id ensures id in l.identities <==> id in l.pendings || id in l.schedulables || id in l.processings || id in l.completeds { assert IdOk(l, id); }
    forall id ensures id in l.payloads <==> id in l.pendings || id in l.schedulables || id in l.processings { assert IdOk(l, id); }
    forall id ensures id in l.results <==> id in l.completeds { assert IdOk(l, id); }
  }

  /** At every point of every run the identity ledger is the disjoint union of the four
      stages, payloads exist exactly in flight, results exactly for completed tasks, and
      no idempotency key occurs twice. */
  lemma TablesPartition(r: Run, i: nat)
    requires IsRun(r) && i < |r.states|
    ensures Partitioned(r.states[i].l)
  {
    InvAt(r, i);
    InvPartitions(r.states[i].l);
  }

  /** No move of an existing row ever violates a constraint. */
  lemma MovesNeverFail(r: Run, i: nat, ids: set<TaskId>, now: Time)
    requires IsRun(r) && i < |r.states|
    ensures var l := r.states[i].l;
            && (ids <= l.pendings.Keys ==> PromoteTx(l, ids).Ok?)
            && (ids <= l.schedulables.Keys ==> ClaimTx(l, ids, now).Ok?)
            && (ids <= l.processings.Keys ==> ReturnTx(l, ids).Ok?)
            && forall id :: RequeueTx(l, id).Ok?
  {
    InvAt(r, i);
    var l := r.states[i].l;
    if ids <= l.pendings.Keys { PromoteStep(l, ids); }
    if ids <= l.schedulables.Keys { ClaimStep(l, ids, now); }
    if ids <= l.processings.Keys { ReturnStep(l, ids); }
    forall id ensures RequeueTx(l, id).Ok? { if id in l.processings { ReturnStep(l, {id}); } }
  }

  /** Complete (with a fence) and DeadLetter (without) are rejected without effect exactly
      when no row is in flight under the fence. Otherwise they succeed exactly when the
      callback can be created: nothing to derive, the depth limit, a key already taken, or
      a new id and a bucket in range after its conversion to 16 bits; if it cannot be
      created they report an error and leave the tables alone. Never a duplicate. */
  lemma TerminalSucceedsIff(r: Run, i: nat, nextId: TaskId, id: TaskId, fence: Option<int>, outcome: Outcome,
                            result: Option<Json>, error: string, at: Time)
    requires IsRun(r) && i < |r.states| && nextId != 0
    ensures var l := r.states[i].l;
            var tx := TerminalTx(l, nextId, id, fence, outcome, result, error, at);
            if !Fenced(l, id, fence) then TerminalOutcome(tx) == Ok(false) && Commit(l, tx) == l
            else if DerivationFits(Finish(l, id, outcome, result, error, at), nextId, id, l.processings[id], outcome)
            then TerminalOutcome(tx) == Ok(true)
            else TerminalOutcome(tx) == Err(Constraint) && Commit(l, tx) == l
  {
    InvAt(r, i);
    TerminalStep(r.states[i].l, nextId, id, fence, outcome, result, error, at);
  }

  /** A Complete that is accepted carries the attempt of the latest claim of its task. */
  lemma AcceptedIsLatestClaim(r: Run, n: nat, req: CompleteRequest, nextId: TaskId, now: Time) returns (i: nat)
    requires IsRun(r) && n < |r.states| && nextId != 0
    requires TerminalOutcome(CompleteTx(r.states[n].l, nextId, req, now)) == Ok(true)
    ensures i < n && ClaimsAt(Ledgers(r), i, req.taskId, req.attempt)
    ensures forall j, a :: i < j < n ==> !ClaimsAt(Ledgers(r), j, req.taskId, a)
  {
    InvAt(r, n);
    RunIsHistory(r);
    var h := Ledgers(r);
    assert IdOk(h[n], req.taskId);
    i := LatestClaim(h, n, req.taskId);
  }

  /** An accepted Complete stores exactly what it was given, beside the payload the task was
      created with and the attempt in flight; the source row and its payload are gone. */
  lemma AcceptedIsStored(r: Run, n: nat, req: CompleteRequest, nextId: TaskId, now: Time)
    requires IsRun(r) && n < |r.states| && nextId != 0
    requires TerminalOutcome(CompleteTx(r.states[n].l, nextId, req, now)) == Ok(true)
    ensures var l, l' := r.states[n].l, CompleteTx(r.states[n].l, nextId, req, now).value;
            var at := req.completedAt.GetOr(now);
            && req.taskId !in l'.processings && req.taskId !in l'.payloads
            && req.taskId in l'.results
            && l'.results[req.taskId] == ResultRow(req.outcome, req.attempt, View(l, req.taskId).TaskPayload(),
                                                   if req.result == Some("") then None else req.result, req.error, at)
            && req.taskId in l'.completeds
            && var c := l'.completeds[req.taskId];
               c.outcome == req.outcome && c.error == req.error && c.completedAt == at && c.attempts == req.attempt
  {
    var l := r.states[n].l;
    InvAt(r, n);
    var at := req.completedAt.GetOr(now);
    TerminalStep(l, nextId, req.taskId, Some(req.attempt), req.outcome, req.result, req.error, at);
    FinishStep(l, req.taskId, req.outcome, req.result, req.error, at);
    assert IdOk(l, req.taskId) && IdOk(CompleteTx(l, nextId, req, now).value, req.taskId);
  }

  /** A row in flight was put there by the latest claim of its task. */
  lemma LatestClaim(h: seq<Ledger>, n: nat, id: TaskId) returns (i: nat)
    requires IsHistory(h) && n < |h| && View(h[n], id).Processing?
    ensures i < n && ClaimsAt(h, i, id, View(h[n], id).proc.attempts) && View(h[n], id) == View(h[i + 1], id)
    ensures forall j, a :: i < j < n ==> !ClaimsAt(h, j, id, a)
  {
    FinalAttempt(h, n, id);
    i := EveryAttemptWasClaimed(h, n, id, View(h[n], id).proc.attempts);
    Persists(h, i + 1, n, id);
    forall j, a | i < j < n && ClaimsAt(h, j, id, a) ensures false {
      Persists(h, i + 1, j, id);
      Persists(h, j + 1, n, id);
    }
  }

  // ----- consuming results -----

  /** A write for a result that changes anything ends the flight of its own attempt, if a
      requeue or dead letter, which carry no attempt, meets that attempt. */
  lemma EffectiveWrite(l: Ledger, ev: ResultEvent, d: Decision, nextId: TaskId, now: Time)
    requires Inv(l) && nextId != 0 && Commit(l, CarryOut(l, ev, d, nextId, now)) != l
    requires d.Retry? || d.Bury? ==> Fenced(l, ev.taskId, Some(ev.attempt))
    ensures Phase(l, ev.taskId) == 2 * ev.attempt
    ensures Phase(Commit(l, CarryOut(l, ev, d, nextId, now)), ev.taskId) == 2 * ev.attempt + 1
  {
    assert IdOk(l, ev.taskId);
    var q := RequestOf(ev);
    match d
    case Retry => ReturnStep(l, {ev.taskId});
    case Bury => Ended(l, nextId, ev.taskId, None, Dead, None, "", now);
    case PassOn => Ended(l, nextId, q.taskId, Some(q.attempt), q.outcome, q.result, q.error, q.completedAt.GetOr(now));
    case Ignore =>
  }

  /** A consumed result that changes anything finds its own attempt in flight and ends that
      flight, whether or not the read of the row failed. */
  lemma EffectiveConsume(l: Ledger, ev: ResultEvent, nextId: TaskId, now: Time, readFails: bool)
    requires Inv(l) && nextId != 0
    ensures var l' := Commit(l, ConsumeTx(l, ev, nextId, now, readFails));
            l' != l ==> Phase(l, ev.taskId) == 2 * ev.attempt && Phase(l', ev.taskId) == 2 * ev.attempt + 1
  {
    if Commit(l, ConsumeTx(l, ev, nextId, now, readFails)) != l {
      EffectiveWrite(l, ev, Course(l, ev, readFails), nextId, now);
    }
  }

  lemma Ended(l: Ledger, nextId: TaskId, id: TaskId, fence: Option<int>, outcome: Outcome,
              result: Option<Json>, error: string, at: Time)
    requires Inv(l) && nextId != 0
    ensures var tx := TerminalTx(l, nextId, id, fence, outcome, result, error, at);
            tx.Ok? ==> Fenced(l, id, fence) && Ends(View(l, id), View(tx.value, id))
  {
    var tx := TerminalTx(l, nextId, id, fence, outcome, result, error, at);
    TerminalStep(l, nextId, id, fence, outcome, result, error, at);
    if tx.Ok? { EndsTaskMoves(l, tx.value, nextId, id, outcome); }
  }

  ghost predicate ConsumesAt(r: Run, i: nat, id: TaskId, attempt: int)
    requires i < |r.steps|
  {
    r.steps[i].Consume? && r.steps[i].ev.taskId == id && r.steps[i].ev.attempt == attempt
  }

  /** Step i consumes a result of this attempt and changes the ledger. */
  ghost predicate TakesEffectAt(r: Run, i: nat, id: TaskId, attempt: int)
    requires |r.states| == |r.steps| + 1 && i < |r.steps|
  {
    ConsumesAt(r, i, id, attempt) && r.states[i + 1].l != r.states[i].l
  }

  /** Consumed in one step each, all copies of the results of one attempt together change
      the ledger at most once, whatever other steps lie between them. */
  lemma ConsumedOnce(r: Run, i: nat, j: nat, id: TaskId, attempt: int)
    requires IsRun(r) && i < |r.steps| && j < |r.steps|
    ensures TakesEffectAt(r, i, id, attempt) && TakesEffectAt(r, j, id, attempt) ==> i == j
  {
    if TakesEffectAt(r, i, id, attempt) && TakesEffectAt(r, j, id, attempt) {
      ConsumePhase(r, i, id, attempt);
      ConsumePhase(r, j, id, attempt);
      RunIsHistory(r);
      if i < j { Persists(Ledgers(r), i + 1, j, id); }
      if j < i { Persists(Ledgers(r), j + 1, i, id); }
    }
  }

  lemma ConsumePhase(r: Run, i: nat, id: TaskId, attempt: int)
    requires IsRun(r) && i < |r.steps|
    ensures TakesEffectAt(r, i, id, attempt) ==>
              Phase(r.states[i].l, id) == 2 * attempt && Phase(r.states[i + 1].l, id) == 2 * attempt + 1
  {
    if TakesEffectAt(r, i, id, attempt) {
      InvAt(r, i);
      StepAt(r, i);
      EffectiveConsume(r.states[i].l, r.steps[i].ev, r.steps[i].nextId, r.states[i].now, r.steps[i].readFails);
    }
  }

  /** Every read of the first n steps that finds a row reports it. */
  ghost predicate ReadsWork(r: Run, n: nat)
    requires n <= |r.steps|
  {
    forall i :: 0 <= i < n ==> ReadWorks(r.steps[i])
  }

  lemma {:induction false} NoFailureAt(r: Run, n: nat)
    requires IsRun(r) && n < |r.states| && ReadsWork(r, n)
    ensures NoFailure(r.states[n])
  {
    if n > 0 {
      NoFailureAt(r, n - 1);
      InvAt(r, n - 1);
      StepAt(r, n - 1);
      StepKeepsNoFailure(r.states[n - 1], r.steps[n - 1]);
    }
  }

  /** As long as GetProcessing errs only for a missing row, no run stores the outcome failed,
      even when the read and the write of a retry are separate steps: a failed result ends
      in a requeue, a dead letter or nothing. */
  lemma NoFailedOutcomeStored(r: Run, i: nat, id: TaskId)
    requires IsRun(r) && i < |r.states| && ReadsWork(r, i)
    ensures var l := r.states[i].l;
            && (id in l.completeds ==> l.completeds[id].outcome in {Succeeded, Dead})
            && (id in l.results ==> l.results[id].outcome in {Succeeded, Dead})
  {
    InvAt(r, i);
    NoFailureAt(r, i);
    assert IdOk(r.states[i].l, id) && Settled(r.states[i].l, id);
  }

  ghost predicate HasFailed(l: Ledger) { exists id :: id in l.completeds && l.completeds[id].outcome == Failed }

  lemma SettledHasNoFailed(l: Ledger)
    requires Inv(l) && forall id :: Settled(l, id)
    ensures !HasFailed(l)
  {
    forall id | id in l.completeds ensures l.completeds[id].outcome != Failed { assert IdOk(l, id) && Settled(l, id); }
  }

  /** A failed result that is passed on to Complete under a live fence. */
  lemma FailedPassedOn(l: Ledger, ev: ResultEvent, nextId: TaskId, now: Time)
    requires Inv(l) && nextId != 0 && (forall id :: Settled(l, id))
    requires OutcomeOf(ev.outcome) == Failed && Fenced(l, ev.taskId, Some(ev.attempt))
    ensures var q := RequestOf(ev);
            HasFailed(Commit(l, CompleteTx(l, nextId, q, now)))
            <==> DerivationFits(Finish(l, ev.taskId, Failed, q.result, q.error, q.completedAt.GetOr(now)),
                                nextId, ev.taskId, l.processings[ev.taskId], Failed)
  {
    var q := RequestOf(ev);
    var tx := CompleteTx(l, nextId, q, now);
    TerminalStep(l, nextId, ev.taskId, Some(ev.attempt), Failed, q.result, q.error, q.completedAt.GetOr(now));
    if tx.Ok? {
      EndsTaskMoves(l, tx.value, nextId, ev.taskId, Failed);
      assert IdOk(tx.value, ev.taskId);
      assert ev.taskId in tx.value.completeds;
    } else {
      SettledHasNoFailed(l);
    }
  }

  lemma SettledStays(l: Ledger, ev: ResultEvent, d: Decision, nextId: TaskId, now: Time)
    requires Inv(l) && nextId != 0 && (forall id :: Settled(l, id))
    requires d.PassOn? && OutcomeOf(ev.outcome) == Failed ==> !Fenced(l, ev.taskId, Some(ev.attempt))
    ensures !HasFailed(Commit(l, CarryOut(l, ev, d, nextId, now)))
  {
    CarryOutMoves(l, ev, d, nextId, now);
    var l' := Commit(l, CarryOut(l, ev, d, nextId, now));
    forall id ensures Settled(l', id) { assert Settled(l, id); }
    SettledHasNoFailed(l');
  }

  /** The premise "GetProcessing errs only for a missing row" is needed, and exactly this
      far: a consumed result stores failed if and only if it is a failed one whose read
      failed although its own attempt is in flight (and its callback can be created). */
  lemma StoresFailedIff(l: Ledger, ev: ResultEvent, nextId: TaskId, now: Time, readFails: bool)
    requires Inv(l) && nextId != 0 && forall id :: Settled(l, id)
    ensures var q := RequestOf(ev);
            HasFailed(Commit(l, ConsumeTx(l, ev, nextId, now, readFails)))
            <==> (&& ev.taskId != 0 && OutcomeOf(ev.outcome) == Failed && readFails
                  && Fenced(l, ev.taskId, Some(ev.attempt))
                  && DerivationFits(Finish(l, ev.taskId, Failed, q.result, q.error, q.completedAt.GetOr(now)),
                                    nextId, ev.taskId, l.processings[ev.taskId], Failed))
  {
    if ev.taskId == 0 {
      SettledHasNoFailed(l);
    } else if OutcomeOf(ev.outcome) == Failed && readFails && Fenced(l, ev.taskId, Some(ev.attempt)) {
      FailedPassedOn(l, ev, nextId, now);
    } else {
      SettledStays(l, ev, Course(l, ev, readFails), nextId, now);
    }
  }

  /** The id a step dead-letters, if it does. */
  ghost function Buries(s: Sys, step: Step): Option<TaskId> {
    match step
    case Dispatch(c, _, _) => if OverBudget(c) then Some(c.taskId) else None
    case Consume(ev, _, readFails) => if Course(s.l, ev, readFails).Bury? then Some(ev.taskId) else None
    case Write(i, _) => if i.decision.Bury? then Some(i.ev.taskId) else None
    case _ => None
  }

  /** A dead letter that takes effect finds the budget used up on the row it moves, even
      when other steps came between the caller's check and the call. */
  lemma BuriedOnlyWhenExhausted(r: Run, i: nat, id: TaskId)
    requires IsRun(r) && i < |r.steps|
    requires Buries(r.states[i], r.steps[i]) == Some(id) && r.states[i + 1].l != r.states[i].l
    ensures id in r.states[i].l.processings
    ensures r.states[i].l.processings[id].attempts >= r.states[i].l.processings[id].maxAttempts
  {
    InvAt(r, i);
    StepAt(r, i);
    var s := r.states[i];
    assert IdOk(s.l, id);
    match r.steps[i]
    case Dispatch(c, _, _) => assert WorkOk(s.l, c);
    case Write(intent, _) => assert IntentOk(s.l, intent);
    case _ =>
  }

  // ----- deliveries -----

  ghost predicate SendsTo(step: Step, id: TaskId) {
    step.Dispatch? && step.sent && step.c.taskId == id
  }

  /** How often, and with which attempts, a task was delivered in the first n steps. */
  ghost function SendCount(steps: seq<Step>, n: nat, id: TaskId): nat
    requires n <= |steps|
  {
    if n == 0 then 0 else SendCount(steps, n - 1, id) + if SendsTo(steps[n - 1], id) then 1 else 0
  }

  ghost function SentAttempts(steps: seq<Step>, n: nat, id: TaskId): set<int>
    requires n <= |steps|
  {
    if n == 0 then {}
    else SentAttempts(steps, n - 1, id) + if SendsTo(steps[n - 1], id) then {steps[n - 1].c.row.attempts} else {}
  }

  /** A held row is the only one of its attempt and was not delivered before. */
  ghost predicate WorkFresh(s: Sys, steps: seq<Step>, n: nat)
    requires n <= |steps|
  {
    && (forall c :: c in s.work ==> c.row.attempts !in SentAttempts(steps, n, c.taskId))
    && (forall c, d :: c in s.work && d in s.work && c.taskId == d.taskId && c.row.attempts == d.row.attempts ==> c == d)
  }

  /** Deliveries of one task are distinct attempts within its budget. */
  ghost predicate SentOk(v: TaskView, sent: set<int>, count: nat) {
    && |sent| == count
    && (sent != {} ==> v.Public().Some?)
    && forall a :: a in sent ==> 1 <= a <= v.Attempts() && a <= v.Public().value.maxAttempts
  }

  lemma {:induction false} DeliveryInv(r: Run, n: nat, id: TaskId)
    requires IsRun(r) && n < |r.states|
    ensures WorkFresh(r.states[n], r.steps, n)
    ensures SentOk(View(r.states[n].l, id), SentAttempts(r.steps, n, id), SendCount(r.steps, n, id))
  {
    if n > 0 {
      DeliveryInv(r, n - 1, id);
      InvAt(r, n - 1);
      StepAt(r, n - 1);
      SentStep(r.states[n - 1], r.steps, n - 1, r.states[n], id);
      forall c | r.steps[n - 1].Claim? && c in r.states[n].work && c !in r.states[n - 1].work
        ensures c.row.attempts !in SentAttempts(r.steps, n - 1, c.taskId)
      {
        DeliveryInv(r, n - 1, c.taskId);
        ClaimAddsNext(r.states[n - 1], r.steps[n - 1].ids, c);
      }
      WorkStep(r.states[n - 1], r.steps, n - 1, r.states[n]);
    }
  }

  lemma SentStep(s: Sys, steps: seq<Step>, n: nat, s': Sys, id: TaskId)
    requires n < |steps| && SysInv(s) && Next(s, steps[n], s') && WorkFresh(s, steps, n)
    requires SentOk(View(s.l, id), SentAttempts(steps, n, id), SendCount(steps, n, id))
    ensures SentOk(View(s'.l, id), SentAttempts(steps, n + 1, id), SendCount(steps, n + 1, id))
  {
    StepKeepsInv(s, steps[n]);
    Persist(s.l, s'.l, id);
    if SendsTo(steps[n], id) { assert WorkOk(s.l, steps[n].c); }
  }

  lemma WorkStep(s: Sys, steps: seq<Step>, n: nat, s': Sys)
    requires n < |steps| && SysInv(s) && Next(s, steps[n], s') && WorkFresh(s, steps, n)
    requires forall c :: steps[n].Claim? && c in s'.work && c !in s.work ==> c.row.attempts !in SentAttempts(steps, n, c.taskId)
    ensures WorkFresh(s', steps, n + 1)
  {
    if steps[n].Claim? { ClaimKeepsWorkFresh(s, steps, n, s'); }
  }

  lemma ClaimAddsNext(s: Sys, ids: set<TaskId>, c: Claimed)
    requires SysInv(s) && Enabled(s, Claim(ids))
    requires c in Apply(s, Claim(ids)).work && c !in s.work
    ensures c.row.attempts == Attempts(s.l, c.taskId) + 1
    ensures c == Claimed(c.taskId, Apply(s, Claim(ids)).l.processings[c.taskId])
  {
    ClaimStep(s.l, ids, s.now);
    var l' := Apply(s, Claim(ids)).l;
    assert c.taskId in ids;
    assert IdOk(l', c.taskId);
  }

  lemma ClaimKeepsWorkFresh(s: Sys, steps: seq<Step>, n: nat, s': Sys)
    requires n < |steps| && SysInv(s) && steps[n].Claim? && Next(s, steps[n], s') && WorkFresh(s, steps, n)
    requires forall c :: c in s'.work && c !in s.work ==> c.row.attempts !in SentAttempts(steps, n, c.taskId)
    ensures WorkFresh(s', steps, n + 1)
  {
    forall c, d | c in s'.work && d in s'.work && c.taskId == d.taskId && c.row.attempts == d.row.attempts
      ensures c == d
    {
      if c in s.work { assert WorkOk(s.l, c); } else { ClaimAddsNext(s, steps[n].ids, c); }
      if d in s.work { assert WorkOk(s.l, d); } else { ClaimAddsNext(s, steps[n].ids, d); }
    }
  }

  /** However many schedulers run and whatever is requeued or reset, a task is delivered at
      most max_attempts times. */
  lemma DeliveredWithinBudget(r: Run, n: nat, id: TaskId)
    requires IsRun(r) && n < |r.states|
    ensures match View(r.states[n].l, id).Public()
            case None => SendCount(r.steps, n, id) == 0
            case Some(p) => SendCount(r.steps, n, id) <= if p.maxAttempts > 0 then p.maxAttempts else 0
  {
    DeliveryInv(r, n, id);
    match View(r.states[n].l, id).Public()
    case None =>
    case Some(p) => SmallSet(SentAttempts(r.steps, n, id), p.maxAttempts);
  }

  // ----- idempotent creation -----

  /** Identity rows stay, and nothing enters the processing table. */
  ghost predicate Quiet(l: Ledger, l': Ledger) {
    KeepsIdentities(l, l') && l'.processings.Keys <= l.processings.Keys
  }

  ghost predicate KeepsIdentities(l: Ledger, l': Ledger) {
    forall id :: id in l.identities ==> id in l'.identities && l'.identities[id] == l.identities[id]
  }

  lemma TerminalQuiet(l: Ledger, nextId: TaskId, id: TaskId, fence: Option<int>, outcome: Outcome,
                      result: Option<Json>, error: string, at: Time)
    ensures Quiet(l, Commit(l, TerminalTx(l, nextId, id, fence, outcome, result, error, at)))
  {
  }

  lemma ConsumeQuiet(l: Ledger, ev: ResultEvent, d: Decision, nextId: TaskId, now: Time)
    ensures Quiet(l, Commit(l, CarryOut(l, ev, d, nextId, now)))
  {
    var q := RequestOf(ev);
    TerminalQuiet(l, nextId, ev.taskId, None, Dead, None, "", now);
    TerminalQuiet(l, nextId, q.taskId, Some(q.attempt), q.outcome, q.result, q.error, q.completedAt.GetOr(now));
  }

  lemma EnqueueQuiet(l: Ledger, req: EnqueueRequest, now: Time)
    ensures EnqueueTx(l, req, now).Ok? && req.idempotencyKey != "" ==> Quiet(l, EnqueueTx(l, req, now).value.0)
  {
  }

  lemma StepQuiet(s: Sys, step: Step)
    requires Enabled(s, step)
    ensures KeepsIdentities(s.l, Commit(s.l, TxOf(s, step)))
    ensures !step.Claim? ==> Quiet(s.l, Commit(s.l, TxOf(s, step)))
  {
    match step
    case Enqueue(req) => EnqueueQuiet(s.l, req, s.now);
    case Dispatch(c, nextId, _) => TerminalQuiet(s.l, nextId, c.taskId, None, Dead, None, "", s.now);
    case Consume(ev, nextId, readFails) => ConsumeQuiet(s.l, ev, Course(s.l, ev, readFails), nextId, s.now);
    case Write(i, nextId) => ConsumeQuiet(s.l, i.ev, i.decision, nextId, s.now);
    case _ =>
  }

  lemma RunKeepsIdentities(r: Run, i: nat)
    requires IsRun(r) && i < |r.steps|
    ensures KeepsIdentities(r.states[i].l, r.states[i + 1].l)
  {
    StepAt(r, i);
    StepQuiet(r.states[i], r.steps[i]);
  }

  lemma {:induction false} IdentityStays(h: seq<Ledger>, i: nat, j: nat, id: TaskId)
    requires i <= j < |h| && id in h[i].identities
    requires forall k, n :: 0 <= k && n == k + 1 && n < |h| ==> KeepsIdentities(h[k], h[n])
    ensures id in h[j].identities && h[j].identities[id] == h[i].identities[id]
  {
    if i < j {
      IdentityStays(h, i, j - 1, id);
      assert KeepsIdentities(h[j - 1], h[j]);
    }
  }

  /** Once an Enqueue of a key has succeeded, every later Enqueue of that key answers with
      the same task id and writes nothing, whatever became of the task in between. */
  lemma KeyNamesOneTask(r: Run, i: nat, j: nat, req: EnqueueRequest)
    requires IsRun(r) && i < j < |r.states| && r.steps[i].Enqueue? && r.steps[i].req.idempotencyKey == req.idempotencyKey
    requires EnqueueTx(r.states[i].l, r.steps[i].req, r.states[i].now).Ok?
    ensures EnqueueTx(r.states[j].l, req, r.states[j].now)
            == Ok((r.states[j].l, EnqueueResult(EnqueueTx(r.states[i].l, r.steps[i].req, r.states[i].now).value.1.taskId, false)))
  {
    var l, q := r.states[i].l, r.steps[i].req;
    var id := EnqueueTx(l, q, r.states[i].now).value.1.taskId;
    StepAt(r, i);
    InvAt(r, j);
    assert id in r.states[i + 1].l.identities && r.states[i + 1].l.identities[id].key == q.idempotencyKey;
    var h := Ledgers(r);
    forall k, n | 0 <= k && n == k + 1 && n < |h| ensures KeepsIdentities(h[k], h[n]) { RunKeepsIdentities(r, k); }
    IdentityStays(h, i + 1, j, id);
  }

  /** A new task starts with exactly the requested columns and payload: the request can be
      read back from its rows. */
  lemma CreatedAsRequested(r: Run, i: nat, req: EnqueueRequest)
    requires IsRun(r) && i < |r.states| && req.idempotencyKey != ""  && req.taskId != 0
    ensures var l, now := r.states[i].l, r.states[i].now;
            var createdAt := req.createdAt.GetOr(now);
            var tx := EnqueueTx(l, req, now);
            tx.Ok? && tx.value.1.created ==>
              && View(l, req.taskId).Unknown?
              && View(tx.value.0, req.taskId)
                 == Pending(NewPending(req, createdAt, req.updatedAt.GetOr(createdAt)),
                            Some(if req.payload == "" then "null" else req.payload))
              && Requested(req.taskId, View(tx.value.0, req.taskId).pending, req.payload)
                 == req.(createdAt := Some(createdAt), updatedAt := Some(req.updatedAt.GetOr(createdAt)))
  {
    var l, now := r.states[i].l, r.states[i].now;
    var createdAt := req.createdAt.GetOr(now);
    InvAt(r, i);
    if !KeyTaken(l, req.idempotencyKey) && req.taskId !in l.identities {
      assert IdOk(l, req.taskId);
      CreateRowsStep(l, req.taskId, req.idempotencyKey, createdAt, req.payload,
                     NewPending(req, createdAt, req.updatedAt.GetOr(createdAt)));
    }
  }

  /** In every reachable state an Enqueue of a taken key answers with its owner, one of a new
      key creates the task exactly when its id is new and its columns are admissible. */
  lemma EnqueueSucceedsIff(r: Run, i: nat, req: EnqueueRequest)
    requires IsRun(r) && i < |r.states| && req.idempotencyKey != "" && req.taskId != 0
    ensures var l := r.states[i].l;
            var tx := EnqueueTx(l, req, r.states[i].now);
            if KeyTaken(l, req.idempotencyKey) then
              && tx.Ok? && tx.value.0 == l && !tx.value.1.created
              && tx.value.1.taskId in l.identities && l.identities[tx.value.1.taskId].key == req.idempotencyKey
            else if req.taskId !in l.identities && 0 <= req.priority <= 100 && req.channel != "" && 0 <= req.hashBucket <= 255 then
              && tx.Ok? && tx.value.1 == EnqueueResult(req.taskId, true)
              && tx.value.0.identities.Keys == l.identities.Keys + {req.taskId}
            else tx.Err?
  {
    var l, now := r.states[i].l, r.states[i].now;
    var createdAt := req.createdAt.GetOr(now);
    InvAt(r, i);
    if !KeyTaken(l, req.idempotencyKey) && req.taskId !in l.identities {
      CreateRowsStep(l, req.taskId, req.idempotencyKey, createdAt, req.payload,
                     NewPending(req, createdAt, req.updatedAt.GetOr(createdAt)));
    }
  }

  // ----- R1 -----

  lemma ClaimEdgeIsClaim(r: Run, i: nat, id: TaskId, attempt: int)
    requires IsRun(r) && i < |r.steps| && ClaimsAt(Ledgers(r), i, id, attempt)
    ensures r.steps[i].Claim? && View(r.states[i + 1].l, id).proc.updatedAt == r.states[i].now
  {
    InvAt(r, i);
    StepAt(r, i);
    var s := r.states[i];
    assert IdOk(s.l, id);
    if r.steps[i].Claim? {
      ClaimStep(s.l, r.steps[i].ids, s.now);
    } else {
      StepQuiet(s, r.steps[i]);
    }
  }

  /** R1 moves a row only when the claim that put it in flight is older than grace plus
      skew on the shared clock. */
  lemma ResetOnlyStale(r: Run, j: nat, id: TaskId) returns (i: nat)
    requires IsRun(r) && j < |r.steps| && r.steps[j].Reset? && id in r.steps[j].ids
    ensures i < j && r.steps[i].Claim? && ClaimsAt(Ledgers(r), i, id, Attempts(r.states[j].l, id))
    ensures forall k, a :: i < k < j ==> !ClaimsAt(Ledgers(r), k, id, a)
    ensures r.states[i].now + r.steps[j].window < r.states[j].now
  {
    InvAt(r, j);
    StepAt(r, j);
    RunIsHistory(r);
    assert IdOk(r.states[j].l, id);
    i := LatestClaim(Ledgers(r), j, id);
    ClaimEdgeIsClaim(r, i, id, Attempts(r.states[j].l, id));
  }
}
