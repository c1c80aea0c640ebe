/** Building concrete runs, and the retry that reads first and writes later. */
module Races {
  import opened Wrappers
  import opened Rows
  import opened LedgerTx
  import opened TaskView
  import opened Collect
  import opened Protocol
  import opened History
  import opened Runs

  ghost function Last(r: Run): Sys
    requires IsRun(r)
  {
    r.states[|r.steps|]
  }

  const START := Run([INIT], [])

  ghost predicate Continues(r: Run, r': Run) { r.states <= r'.states && r.steps <= r'.steps }

  lemma Extend(r: Run, step: Step) returns (r': Run)
    requires IsRun(r) && Enabled(Last(r), step)
    ensures IsRun(r') && r'.steps == r.steps + [step]
    ensures |r'.states| == |r.states| + 1 && forall i :: 0 <= i < |r.states| ==> r'.states[i] == r.states[i]
    ensures Continues(r, r')
    ensures Last(r') == Apply(Last(r), step)
    ensures SysInv(Last(r'))
  {
    r' := Run(r.states + [Apply(Last(r), step)], r.steps + [step]);
    forall i, k | 0 <= i && k == i + 1 && k < |r'.states| ensures Next(r'.states[i], r'.steps[i], r'.states[k]) {
      if i < |r.steps| { StepAt(r, i); }
    }
    InvAt(r', |r'.steps|);
  }

  /** A task of the given timeout, budget and callback, enqueued under id 1, promoted and
      claimed at time 0. */
  function Request(timeoutMs: int, max: int, callback: CallbackColumn): EnqueueRequest {
    EnqueueRequest(1, "t", "", DEFAULT_PRIORITY, "c", timeoutMs, max, "k", callback, 0, "", "", "", 0,
                   [], "", "", "", "null", None, None)
  }

  lemma FirstClaim(timeoutMs: int, max: int, callback: CallbackColumn) returns (r: Run)
    ensures IsRun(r) && r.steps == [Enqueue(Request(timeoutMs, max, callback)), Promote({1}), Claim({1})]
    ensures Last(r).intents == {} && Last(r).now == 0 && SysInv(Last(r))
    ensures 1 in Last(r).l.processings && Last(r).work == {Claimed(1, Last(r).l.processings[1])}
    ensures var p := Last(r).l.processings[1];
            && p.attempts == 1 && p.maxAttempts == max && p.callback == callback && p.parentTaskId == 0
            && p.timeoutMs == timeoutMs && p.updatedAt == 0
    ensures Last(r).l.identities.Keys == {1} && Last(r).l.identities[1].key == "k" && Last(r).l.completeds == map[]
  {
    var req := Request(timeoutMs, max, callback);
    assert IsRun(START);
    CreatedAsRequested(START, 0, req);
    assert NewPending(req, 0, 0).Accepted();
    r := Extend(START, Enqueue(req));
    assert View(Last(r).l, 1) == Pending(NewPending(req, 0, 0), Some("null"));
    PromoteStep(Last(r).l, {1});
    r := Extend(r, Promote({1}));
    ClaimStep(Last(r).l, {1}, 0);
    r := Extend(r, Claim({1}));
  }

  lemma Wait(r: Run, t: Time) returns (r': Run)
    requires IsRun(r) && Last(r).now <= t
    ensures IsRun(r') && SysInv(Last(r')) && Last(r').l == Last(r).l && Last(r').now == t && Continues(r, r')
    ensures r'.steps == r.steps + [Tick(t)]
  {
    r' := Extend(r, Tick(t));
  }

  lemma LateReset(r: Run, window: Time) returns (r': Run)
    requires IsRun(r) && SysInv(Last(r)) && 1 in Last(r).l.processings
    requires Due(Last(r).l.processings[1], window, Last(r).now)
    ensures IsRun(r') && SysInv(Last(r')) && 1 in Last(r').l.schedulables && Continues(r, r')
    ensures Last(r').l.schedulables[1] == Returned(Last(r).l.processings[1])
    ensures Last(r').l.identities == Last(r).l.identities && Last(r').l.completeds == Last(r).l.completeds
    ensures r'.steps == r.steps + [Reset({1}, window)]
  {
    ReturnStep(Last(r).l, {1});
    r' := Extend(r, Reset({1}, window));
  }

  // ----- the retry that reads first and writes later -----

  const FAILED_ONCE := ResultEvent(1, 1, 2, "", "boom", 0)

  lemma AfterRead() returns (r: Run)
    ensures IsRun(r) && |r.steps| == 5 && SysInv(Last(r))
    ensures 1 in Last(r).l.processings && Last(r).l.processings[1].attempts == 1 && Last(r).l.processings[1].maxAttempts == 3
    ensures Intent(FAILED_ONCE, Retry) in Last(r).intents && FAILED_ONCE in Last(r).events
  {
    r := FirstClaim(60000, 3, NoColumn);
    r := Extend(r, Emit(FAILED_ONCE));
    r := Extend(r, Read(FAILED_ONCE, false));
  }

  lemma AfterConsume() returns (r: Run)
    ensures IsRun(r) && |r.steps| == 6 && SysInv(Last(r))
    ensures 1 in Last(r).l.schedulables && Last(r).l.schedulables[1].attempts == 1
    ensures Intent(FAILED_ONCE, Retry) in Last(r).intents
    ensures r.steps[5] == Consume(FAILED_ONCE, 2, false) && r.states[6].l != r.states[5].l
  {
    r := AfterRead();
    ReturnStep(Last(r).l, {1});
    r := Extend(r, Consume(FAILED_ONCE, 2, false));
  }

  lemma AfterReclaim() returns (r: Run)
    ensures IsRun(r) && |r.steps| == 7 && SysInv(Last(r))
    ensures 1 in Last(r).l.processings && Last(r).l.processings[1].attempts == 2
    ensures Intent(FAILED_ONCE, Retry) in Last(r).intents
    ensures r.steps[5] == Consume(FAILED_ONCE, 2, false) && r.states[6].l != r.states[5].l
  {
    r := AfterConsume();
    ClaimStep(Last(r).l, {1}, Last(r).now);
    r := Extend(r, Claim({1}));
  }

  /** One failed result of attempt 1, consumed twice: its second consumer had read the row
      before, and its late write returns attempt 2, which is still running. */
  lemma StaleRetryTakesEffect() returns (r: Run)
    ensures IsRun(r) && |r.steps| == 8
    ensures r.steps[5] == Consume(FAILED_ONCE, 2, false) && r.states[6].l != r.states[5].l
    ensures r.steps[7] == Write(Intent(FAILED_ONCE, Retry), 2) && r.states[8].l != r.states[7].l
    ensures Returns(View(r.states[7].l, 1), View(r.states[8].l, 1))
    ensures Attempts(r.states[7].l, 1) == 2 > FAILED_ONCE.attempt
  {
    r := AfterReclaim();
    assert IdOk(Last(r).l, 1);
    ReturnStep(Last(r).l, {1});
    r := Extend(r, Write(Intent(FAILED_ONCE, Retry), 2));
  }

  /** A late retry write ends the flight of its own attempt exactly when that attempt is
      still in flight; it changes something exactly when any attempt is. */
  lemma RetryWriteIff(r: Run, n: nat, ev: ResultEvent, nextId: TaskId)
    requires IsRun(r) && n < |r.states| && Intent(ev, Retry) in r.states[n].intents
    ensures var l := r.states[n].l;
            var l' := Commit(l, CarryOut(l, ev, Retry, nextId, r.states[n].now));
            && (l' != l <==> ev.taskId in l.processings)
            && (l' != l && Phase(l', ev.taskId) == 2 * ev.attempt + 1
                <==> ev.taskId in l.processings && l.processings[ev.taskId].attempts == ev.attempt)
  {
    InvAt(r, n);
    var l := r.states[n].l;
    assert IdOk(l, ev.taskId);
    if ev.taskId in l.processings { ReturnStep(l, {ev.taskId}); }
  }

  ghost predicate ActsFor(step: Step, id: TaskId, attempt: int) {
    match step
    case Consume(ev, _, _) => ev.taskId == id && ev.attempt == attempt
    case Write(i, _) => i.ev.taskId == id && i.ev.attempt == attempt
    case _ => false
  }

  /** Step i acts for a result of this attempt and changes the ledger. */
  ghost predicate EffectAt(r: Run, i: nat, id: TaskId, attempt: int)
    requires |r.states| == |r.steps| + 1 && i < |r.steps|
  {
    ActsFor(r.steps[i], id, attempt) && r.states[i + 1].l != r.states[i].l
  }

  /** A late requeue or dead letter of this attempt only ever meets this attempt. */
  ghost predicate WritesMeetOwn(r: Run, id: TaskId, attempt: int)
    requires |r.states| == |r.steps| + 1
  {
    forall i :: 0 <= i < |r.steps| && r.steps[i].Write? && EffectAt(r, i, id, attempt) ==>
      id in r.states[i].l.processings && r.states[i].l.processings[id].attempts == attempt
  }

  lemma EffectPhase(r: Run, i: nat, id: TaskId, attempt: int)
    requires IsRun(r) && i < |r.steps| && WritesMeetOwn(r, id, attempt)
    ensures EffectAt(r, i, id, attempt) ==>
              Phase(r.states[i].l, id) == 2 * attempt && Phase(r.states[i + 1].l, id) == 2 * attempt + 1
  {
    if EffectAt(r, i, id, attempt) {
      InvAt(r, i);
      StepAt(r, i);
      match r.steps[i]
      case Consume(ev, nextId, readFails) => EffectiveConsume(r.states[i].l, ev, nextId, r.states[i].now, readFails);
      case Write(intent, nextId) => EffectiveWrite(r.states[i].l, intent.ev, intent.decision, nextId, r.states[i].now);
    }
  }

  /** With the read and the write of a retry as separate steps, all results of one attempt
      together still change the ledger at most once, provided every late requeue or dead
      letter that takes effect meets its own attempt. */
  lemma EffectsOnce(r: Run, i: nat, j: nat, id: TaskId, attempt: int)
    requires IsRun(r) && i < |r.steps| && j < |r.steps| && WritesMeetOwn(r, id, attempt)
    ensures EffectAt(r, i, id, attempt) && EffectAt(r, j, id, attempt) ==> i == j
  {
    if EffectAt(r, i, id, attempt) && EffectAt(r, j, id, attempt) {
      EffectPhase(r, i, id, attempt);
      EffectPhase(r, j, id, attempt);
      RunIsHistory(r);
      if i < j { Persists(Ledgers(r), i + 1, j, id); }
      if j < i { Persists(Ledgers(r), j + 1, i, id); }
    }
  }
}
