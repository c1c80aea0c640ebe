/** Schedulers, collectors and the reconciler driving one ledger concurrently: every
    transaction is one step, and so is every read that a later write relies on. */
module Protocol {
  import opened Wrappers
  import opened Rows
  import opened LedgerTx
  import opened TaskView
  import opened Collect

  /** A failed result whose row was read but not yet acted upon. */
  datatype Intent = Intent(ev: ResultEvent, decision: Decision)

  /** `work`: rows claimed and still held by a scheduler. `events`: results produced so
      far; they never leave the set, so each may be consumed late, twice or never. */
  datatype Sys = Sys(l: Ledger, now: Time, work: set<Claimed>, events: set<ResultEvent>, intents: set<Intent>)

  const INIT := Sys(EMPTY, 0, {}, {}, {})

  datatype Step =
    | Tick(to: Time)
    | Enqueue(req: EnqueueRequest)
    | Promote(ids: set<TaskId>)
    | Claim(ids: set<TaskId>)
    | Dispatch(c: Claimed, nextId: TaskId, sent: bool)
    | Emit(ev: ResultEvent)
    | Consume(ev: ResultEvent, nextId: TaskId, readFails: bool)
    | Read(ev: ResultEvent, readFails: bool)
    | Write(intent: Intent, nextId: TaskId)
    | Reset(ids: set<TaskId>, window: Time)

  ghost function Attempts(l: Ledger, id: TaskId): int { View(l, id).Attempts() }
  ghost function Phase(l: Ledger, id: TaskId): int { View(l, id).Phase() }

  ghost predicate Enabled(s: Sys, step: Step) {
    match step
    case Tick(to) => to >= s.now
    case Enqueue(req) => req.idempotencyKey != "" && req.taskId != 0
    case Promote(ids) => ids <= s.l.pendings.Keys
    case Claim(ids) => ids <= s.l.schedulables.Keys
    case Dispatch(c, nextId, sent) => c in s.work && nextId != 0 && (sent ==> !OverBudget(c))
    case Emit(ev) => ev.taskId != 0 && 1 <= ev.attempt <= Attempts(s.l, ev.taskId)
    case Consume(ev, nextId, _) => ev in s.events && nextId != 0
    case Read(ev, _) => ev in s.events && OutcomeOf(ev.outcome) == Failed
    case Write(intent, nextId) => intent in s.intents && nextId != 0
    case Reset(ids, window) =>
      ids <= s.l.processings.Keys && forall id :: id in ids ==> s.l.processings[id].updatedAt < s.now - window
  }

  /** The transaction a step runs. */
  ghost function TxOf(s: Sys, step: Step): Tx<Ledger>
    requires Enabled(s, step)
  {
    match step
    case Enqueue(req) =>
      (match EnqueueTx(s.l, req, s.now) case Ok(r) => Ok(r.0) case Err(e) => Err(e))
    case Promote(ids) => PromoteTx(s.l, ids)
    case Claim(ids) => ClaimTx(s.l, ids, s.now)
    case Dispatch(c, nextId, sent) => DispatchTx(s.l, c, nextId, s.now)
    case Consume(ev, nextId, readFails) => ConsumeTx(s.l, ev, nextId, s.now, readFails)
    case Write(intent, nextId) => CarryOut(s.l, intent.ev, intent.decision, nextId, s.now)
    case Reset(ids, window) => ReturnTx(s.l, ids)
    case _ => Ok(s.l)
  }

  ghost function Apply(s: Sys, step: Step): Sys
    requires Enabled(s, step)
  {
    var l' := Commit(s.l, TxOf(s, step));
    match step
    case Tick(to) => s.(now := to)
    case Claim(ids) => s.(l := l', work := s.work + set id | id in ids && id in l'.processings :: Claimed(id, l'.processings[id]))
    case Dispatch(c, _, _) => s.(l := l', work := s.work - {c})
    case Emit(ev) => s.(events := s.events + {ev})
    case Read(ev, readFails) => s.(intents := s.intents + {Intent(ev, Conclude(s.l, ev, readFails))})
    case _ => s.(l := l')
  }

  // ----- the invariant of the whole system -----

  ghost predicate ClaimedAttempt(l: Ledger, ev: ResultEvent) {
    ev.taskId != 0 && 1 <= ev.attempt <= Attempts(l, ev.taskId)
  }

  ghost predicate WorkOk(l: Ledger, c: Claimed) {
    && 1 <= c.row.attempts <= Attempts(l, c.taskId)
    && View(l, c.taskId).Public() == Some(c.row.Public())
  }

  ghost predicate Exhausted(l: Ledger, id: TaskId) {
    && View(l, id).Public().Some?
    && Attempts(l, id) >= View(l, id).Public().value.maxAttempts
  }

  ghost predicate IntentOk(l: Ledger, i: Intent) {
    && ClaimedAttempt(l, i.ev) && OutcomeOf(i.ev.outcome) == Failed
    && (i.decision.Bury? ==> Exhausted(l, i.ev.taskId))
  }

  ghost predicate SysInv(s: Sys) {
    && Inv(s.l)
    && (forall ev :: ev in s.events ==> ClaimedAttempt(s.l, ev))
    && (forall c :: c in s.work ==> WorkOk(s.l, c))
    && (forall i :: i in s.intents ==> IntentOk(s.l, i))
  }

  // ----- one step -----

  ghost predicate GoodStep(l: Ledger, l': Ledger) { Inv(l') && Moves(l, l') }

  lemma TerminalMoves(l: Ledger, nextId: TaskId, id: TaskId, fence: Option<int>, outcome: Outcome,
                      result: Option<Json>, error: string, at: Time)
    requires Inv(l) && nextId != 0
    ensures var l' := Commit(l, TerminalTx(l, nextId, id, fence, outcome, result, error, at));
            && GoodStep(l, l')
            && (outcome in {Succeeded, Dead} || !Fenced(l, id, fence) ==> EndsSettled(l, l'))
  {
    var tx := TerminalTx(l, nextId, id, fence, outcome, result, error, at);
    TerminalStep(l, nextId, id, fence, outcome, result, error, at);
    if tx.Ok? { EndsTaskMoves(l, tx.value, nextId, id, outcome); }
  }

  lemma CarryOutMoves(l: Ledger, ev: ResultEvent, d: Decision, nextId: TaskId, now: Time)
    requires Inv(l) && nextId != 0
    ensures var l' := Commit(l, CarryOut(l, ev, d, nextId, now));
            && GoodStep(l, l')
            && (!(d.PassOn? && OutcomeOf(ev.outcome) == Failed && Fenced(l, ev.taskId, Some(ev.attempt))) ==> EndsSettled(l, l'))
  {
    match d
    case PassOn =>
      var r := RequestOf(ev);
      TerminalMoves(l, nextId, r.taskId, Some(r.attempt), r.outcome, r.result, r.error, r.completedAt.GetOr(now));
    case Bury => TerminalMoves(l, nextId, ev.taskId, None, Dead, None, "", now);
    case Retry => if ev.taskId in l.processings { ReturnStep(l, {ev.taskId}); }
    case Ignore =>
  }

  /** The transaction of a step keeps the tables consistent and moves each task by one edge. */
  lemma TxStep(s: Sys, step: Step)
    requires SysInv(s) && Enabled(s, step)
    ensures GoodStep(s.l, Commit(s.l, TxOf(s, step)))
  {
    match step
    case Enqueue(req) => EnqueueStep(s.l, req, s.now);
    case Promote(ids) => PromoteStep(s.l, ids);
    case Claim(ids) => ClaimStep(s.l, ids, s.now);
    case Reset(ids, _) => ReturnStep(s.l, ids);
    case Dispatch(c, nextId, _) =>
      if OverBudget(c) { TerminalMoves(s.l, nextId, c.taskId, None, Dead, None, "", s.now); }
    case Consume(ev, nextId, readFails) => CarryOutMoves(s.l, ev, Course(s.l, ev, readFails), nextId, s.now);
    case Write(i, nextId) => CarryOutMoves(s.l, i.ev, i.decision, nextId, s.now);
    case _ =>
  }

  lemma Persist(l: Ledger, l': Ledger, id: TaskId)
    requires Moves(l, l')
    ensures Later(View(l, id), View(l', id))
  {
    assert EdgeOrStay(View(l, id), View(l', id));
    LaterByEdge(View(l, id), View(l, id), View(l', id));
  }

  /** What was true of the events, held rows and intents stays true. */
  lemma MovesKeepFacts(s: Sys, l': Ledger)
    requires SysInv(s) && Moves(s.l, l')
    ensures forall ev :: ev in s.events ==> ClaimedAttempt(l', ev)
    ensures forall c :: c in s.work ==> WorkOk(l', c)
    ensures forall i :: i in s.intents ==> IntentOk(l', i)
  {
    forall ev | ev in s.events ensures ClaimedAttempt(l', ev) { Persist(s.l, l', ev.taskId); }
    forall c | c in s.work ensures WorkOk(l', c) { assert WorkOk(s.l, c); Persist(s.l, l', c.taskId); }
    forall i | i in s.intents ensures IntentOk(l', i) { assert IntentOk(s.l, i); Persist(s.l, l', i.ev.taskId); }
  }

  lemma ClaimedWorkOk(l: Ledger, ids: set<TaskId>, now: Time, c: Claimed)
    requires Inv(l) && ids <= l.schedulables.Keys && c.taskId in ids && ClaimTx(l, ids, now).Ok?
    requires var l' := ClaimTx(l, ids, now).value; c.taskId in l'.processings && c.row == l'.processings[c.taskId]
    ensures WorkOk(ClaimTx(l, ids, now).value, c)
  {
    ClaimStep(l, ids, now);
    assert IdOk(ClaimTx(l, ids, now).value, c.taskId);
  }

  /** Every step of every actor, failing reads included, keeps the invariant. */
  lemma StepKeepsInv(s: Sys, step: Step)
    requires SysInv(s) && Enabled(s, step)
    ensures SysInv(Apply(s, step)) && Moves(s.l, Apply(s, step).l)
  {
    TxStep(s, step);
    var l' := Commit(s.l, TxOf(s, step));
    MovesKeepFacts(s, l');
    match step
    case Claim(ids) =>
      ClaimStep(s.l, ids, s.now);
      forall id | id in ids && id in l'.processings ensures WorkOk(l', Claimed(id, l'.processings[id])) {
        ClaimedWorkOk(s.l, ids, s.now, Claimed(id, l'.processings[id]));
      }
    case Read(ev, readFails) => ReadOk(s.l, ev, readFails);
    case _ =>
  }

  lemma ReadOk(l: Ledger, ev: ResultEvent, readFails: bool)
    requires Inv(l) && ClaimedAttempt(l, ev) && OutcomeOf(ev.outcome) == Failed
    ensures var i := Intent(ev, Conclude(l, ev, readFails));
            IntentOk(l, i) && (!readFails ==> PassedBy(l, i))
  {
    assert IdOk(l, ev.taskId);
  }

  // ----- without failing reads -----

  ghost predicate ReadWorks(step: Step) {
    match step
    case Consume(_, _, readFails) => !readFails
    case Read(_, readFails) => !readFails
    case _ => true
  }

  /** A result that is passed on is one whose attempt is over. */
  ghost predicate PassedBy(l: Ledger, i: Intent) {
    i.decision.PassOn? ==> Phase(l, i.ev.taskId) > 2 * i.ev.attempt
  }

  ghost predicate Settled(l: Ledger, id: TaskId) {
    View(l, id).Ended? ==> View(l, id).completed.outcome in {Succeeded, Dead}
  }

  /** Whatever ends in this transaction ends as succeeded or dead. */
  ghost predicate EndsSettled(l: Ledger, l': Ledger) {
    forall id :: View(l', id).Ended? && View(l, id) != View(l', id) ==> Settled(l', id)
  }

  ghost predicate NoFailure(s: Sys) {
    (forall i :: i in s.intents ==> PassedBy(s.l, i)) && forall id :: Settled(s.l, id)
  }

  lemma TxSettles(s: Sys, step: Step)
    requires SysInv(s) && NoFailure(s) && Enabled(s, step) && ReadWorks(step)
    ensures EndsSettled(s.l, Commit(s.l, TxOf(s, step)))
  {
    match step
    case Enqueue(req) => EnqueueStep(s.l, req, s.now);
    case Promote(ids) => PromoteStep(s.l, ids);
    case Claim(ids) => ClaimStep(s.l, ids, s.now);
    case Reset(ids, _) => ReturnStep(s.l, ids);
    case Dispatch(c, nextId, _) =>
      if OverBudget(c) { TerminalMoves(s.l, nextId, c.taskId, None, Dead, None, "", s.now); }
    case Consume(ev, nextId, _) => CarryOutMoves(s.l, ev, Course(s.l, ev, false), nextId, s.now);
    case Write(i, nextId) =>
      assert PassedBy(s.l, i) && IdOk(s.l, i.ev.taskId);
      CarryOutMoves(s.l, i.ev, i.decision, nextId, s.now);
    case _ =>
  }

  /** As long as every read that finds a row reports it, nothing ends as failed. */
  lemma StepKeepsNoFailure(s: Sys, step: Step)
    requires SysInv(s) && NoFailure(s) && Enabled(s, step) && ReadWorks(step)
    ensures NoFailure(Apply(s, step))
  {
    StepKeepsInv(s, step);
    TxSettles(s, step);
    var l' := Commit(s.l, TxOf(s, step));
    assert Apply(s, step).l == l';
    forall id ensures Settled(l', id) { assert Settled(s.l, id); }
    forall i | i in s.intents ensures PassedBy(l', i) { assert PassedBy(s.l, i); Persist(s.l, l', i.ev.taskId); }
    if step.Read? { ReadOk(s.l, step.ev, false); }
  }
}
