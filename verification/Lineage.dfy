/** Callback chains: which task was derived from which, over a whole run, and the bound
    the depth check puts on them. */
module Lineage {
  import opened Wrappers
  import opened Rows
  import opened LedgerTx
  import opened TaskView
  import opened Collect
  import opened Protocol
  import opened Runs
  import opened Sets

  /** The enqueued task a chain starts from, the number of derivations since, and the task
      that was ending when this one was created. */
  datatype Kin = Kin(root: TaskId, depth: nat, parent: TaskId)

  ghost function Born(l: Ledger, l': Ledger): set<TaskId> { l'.identities.Keys - l.identities.Keys }

  ghost predicate EndsIn(l: Ledger, l': Ledger, p: TaskId) { Ends(View(l, p), View(l', p)) }

  /** One step creates at most one task; if a task p ends in it, the new one is p's child. */
  ghost predicate Lineal(l: Ledger, l': Ledger) {
    && l.identities.Keys <= l'.identities.Keys
    && (forall c, d :: c in Born(l, l') && d in Born(l, l') ==> c == d)
    && forall p, c :: EndsIn(l, l', p) && c in Born(l, l') ==>
         && View(l', c).Pending? && View(l', c).pending.parentTaskId == p
         && DepthFrom(l'.completeds, p, 0) < MAX_CALLBACK_DEPTH
  }

  /** The known task that ends in a step, if one does. */
  ghost function Ender(l: Ledger, l': Ledger, known: set<TaskId>): (r: Option<TaskId>)
    ensures r.Some? ==> EndsIn(l, l', r.value) && r.value in known
    ensures r.None? ==> forall p :: p in known ==> !EndsIn(l, l', p)
  {
    if exists p :: p in known && EndsIn(l, l', p) then var p :| p in known && EndsIn(l, l', p); Some(p) else None
  }

  ghost function Extend(k: map<TaskId, Kin>, l: Ledger, l': Ledger): map<TaskId, Kin> {
    k + map c | c in Born(l, l') ::
          match Ender(l, l', k.Keys)
          case Some(p) => Kin(k[p].root, k[p].depth + 1, p)
          case None => Kin(c, 0, c)
  }

  /** The family tree after the first n steps. */
  ghost function Tree(h: seq<Ledger>, n: nat): map<TaskId, Kin>
    requires n < |h|
  {
    if n == 0 then map[] else Extend(Tree(h, n - 1), h[n - 1], h[n])
  }

  // ----- every step of a run is lineal -----

  lemma TerminalLineal(l: Ledger, nextId: TaskId, id: TaskId, fence: Option<int>, outcome: Outcome,
                       result: Option<Json>, error: string, at: Time)
    requires Inv(l) && nextId != 0
    ensures Lineal(l, Commit(l, TerminalTx(l, nextId, id, fence, outcome, result, error, at)))
  {
    var tx := TerminalTx(l, nextId, id, fence, outcome, result, error, at);
    TerminalStep(l, nextId, id, fence, outcome, result, error, at);
    if tx.Ok? {
      EndsTaskMoves(l, tx.value, nextId, id, outcome);
      EndsTaskLineal(l, tx.value, nextId, id, outcome);
    }
  }

  lemma EndsTaskLineal(l: Ledger, l': Ledger, nextId: TaskId, id: TaskId, outcome: Outcome)
    requires EndsTask(l, l', nextId, id, outcome)
    ensures Lineal(l, l')
  {
    var l1 :| EndsOnly(l, l1, id, outcome) && Derives(l1, l', nextId, id);
    OnlyEnds(l, l1, l', nextId, id, outcome);
    assert Born(l, l') <= {nextId};
  }

  lemma OnlyEnds(l: Ledger, l1: Ledger, l': Ledger, nextId: TaskId, id: TaskId, outcome: Outcome)
    requires EndsOnly(l, l1, id, outcome) && Derives(l1, l', nextId, id)
    ensures forall p :: EndsIn(l, l', p) ==> p == id
  {
    forall p | p != id ensures !EndsIn(l, l', p) {
      assert View(l1, p) == View(l, p);
    }
  }

  lemma EnqueueLineal(l: Ledger, req: EnqueueRequest, now: Time)
    requires Inv(l) && req.idempotencyKey != "" && req.taskId != 0
    ensures EnqueueTx(l, req, now).Ok? ==> Lineal(l, EnqueueTx(l, req, now).value.0)
  {
    var createdAt := req.createdAt.GetOr(now);
    if !KeyTaken(l, req.idempotencyKey) && req.taskId !in l.identities {
      assert IdOk(l, req.taskId);
      CreateRowsStep(l, req.taskId, req.idempotencyKey, createdAt, req.payload,
                     NewPending(req, createdAt, req.updatedAt.GetOr(createdAt)));
    }
  }

  lemma CarryOutLineal(l: Ledger, ev: ResultEvent, d: Decision, nextId: TaskId, now: Time)
    requires Inv(l) && nextId != 0
    ensures Lineal(l, Commit(l, CarryOut(l, ev, d, nextId, now)))
  {
    var q := RequestOf(ev);
    match d
    case PassOn => TerminalLineal(l, nextId, q.taskId, Some(q.attempt), q.outcome, q.result, q.error, q.completedAt.GetOr(now));
    case Bury => TerminalLineal(l, nextId, ev.taskId, None, Dead, None, "", now);
    case _ =>
  }

  lemma StepLineal(s: Sys, step: Step)
    requires SysInv(s) && Enabled(s, step)
    ensures Lineal(s.l, Commit(s.l, TxOf(s, step)))
  {
    match step
    case Enqueue(req) => EnqueueLineal(s.l, req, s.now);
    case Dispatch(c, nextId, _) => TerminalLineal(s.l, nextId, c.taskId, None, Dead, None, "", s.now);
    case Consume(ev, nextId, readFails) => CarryOutLineal(s.l, ev, Course(s.l, ev, readFails), nextId, s.now);
    case Write(i, nextId) => CarryOutLineal(s.l, i.ev, i.decision, nextId, s.now);
    case _ =>
  }

  // ----- the tree -----

  /** Parents of derived tasks are completed, and each has at most one child. */
  ghost predicate TreeOk(l: Ledger, k: map<TaskId, Kin>) {
    && k.Keys == l.identities.Keys
    && (forall c :: c in k ==> KinOk(l, k, c))
    && (forall c, d :: c in k && d in k && k[c].depth > 0 && k[d].depth > 0 && k[c].parent == k[d].parent ==> c == d)
  }

  ghost predicate KinOk(l: Ledger, k: map<TaskId, Kin>, c: TaskId)
    requires c in k
  {
    && k[c].depth <= MAX_CALLBACK_DEPTH
    && (k[c].depth == 0 ==> k[c].root == c)
    && (k[c].depth > 0 ==>
          && View(l, k[c].parent).Ended? && k[c].parent in l.completeds && k[c].parent != 0
          && View(l, c).Public().Some? && View(l, c).Public().value.parentTaskId == k[c].parent
          && k[c].parent in k && k[k[c].parent].depth == k[c].depth - 1 && k[k[c].parent].root == k[c].root)
  }

  lemma {:induction false} DepthAtLeast(completeds: map<TaskId, CompletedRow>, cur: TaskId, depth: nat)
    ensures DepthFrom(completeds, cur, depth) >= depth
    decreases MAX_CALLBACK_DEPTH + 1 - depth
  {
    if depth <= MAX_CALLBACK_DEPTH && cur in completeds { DepthAtLeast(completeds, completeds[cur].parentTaskId, depth + 1); }
  }

  /** The walk over the completed table counts at least the true derivation depth, up to
      its cut-off: every ancestor of a derived task is completed and stays so. */
  lemma {:induction false} WalkSeesDepth(l: Ledger, k: map<TaskId, Kin>, c: TaskId, depth: nat)
    requires Inv(l) && c in k && View(l, c).Ended? && forall d :: d in k ==> KinOk(l, k, d)
    ensures DepthFrom(l.completeds, c, depth) >= if depth + k[c].depth <= MAX_CALLBACK_DEPTH then depth + k[c].depth
                                                else if depth <= MAX_CALLBACK_DEPTH + 1 then MAX_CALLBACK_DEPTH + 1 else depth
    decreases k[c].depth
  {
    assert KinOk(l, k, c) && IdOk(l, c);
    DepthAtLeast(l.completeds, c, depth);
    if k[c].depth > 0 && depth <= MAX_CALLBACK_DEPTH { WalkSeesDepth(l, k, k[c].parent, depth + 1); }
  }

  lemma KinKept(l: Ledger, l': Ledger, k: map<TaskId, Kin>, k': map<TaskId, Kin>, c: TaskId)
    requires Inv(l') && Moves(l, l') && c in k && KinOk(l, k, c)
    requires forall d :: d in k ==> d in k' && k'[d] == k[d]
    ensures KinOk(l', k', c)
  {
    Persist(l, l', c);
    Persist(l, l', k[c].parent);
    assert IdOk(l', k[c].parent);
  }

  lemma ParentBelowLimit(l: Ledger, l': Ledger, k: map<TaskId, Kin>, p: TaskId)
    requires Inv(l') && Moves(l, l') && TreeOk(l, k) && p in k && View(l', p).Ended?
    requires DepthFrom(l'.completeds, p, 0) < MAX_CALLBACK_DEPTH
    ensures k[p].depth < MAX_CALLBACK_DEPTH
  {
    forall d | d in k ensures KinOk(l', k, d) { KinKept(l, l', k, k, d); }
    WalkSeesDepth(l', k, p, 0);
  }

  /** A child born of an ending parent p sits one below it, and within the limit. */
  lemma ChildOk(l: Ledger, l': Ledger, k: map<TaskId, Kin>, k': map<TaskId, Kin>, p: TaskId, c: TaskId)
    requires Inv(l') && Moves(l, l') && TreeOk(l, k) && p in k && View(l', p).Ended?
    requires DepthFrom(l'.completeds, p, 0) < MAX_CALLBACK_DEPTH
    requires View(l', c).Pending? && View(l', c).pending.parentTaskId == p
    requires c in k' && k'[c] == Kin(k[p].root, k[p].depth + 1, p)
    requires forall d :: d in k ==> d in k' && k'[d] == k[d]
    ensures KinOk(l', k', c)
  {
    ParentBelowLimit(l, l', k, p);
    assert IdOk(l', p);
  }

  lemma BornOk(l: Ledger, l': Ledger, k: map<TaskId, Kin>, c: TaskId)
    requires Inv(l') && Moves(l, l') && Lineal(l, l') && TreeOk(l, k) && c in Born(l, l')
    ensures KinOk(l', Extend(k, l, l'), c)
  {
    var k' := Extend(k, l, l');
    match Ender(l, l', k.Keys)
    case None =>
    case Some(p) =>
      assert EndsIn(l, l', p);
      ChildOk(l, l', k, k', p, c);
  }

  lemma ExtendOk(l: Ledger, l': Ledger, k: map<TaskId, Kin>)
    requires Inv(l) && Inv(l') && Moves(l, l') && Lineal(l, l') && TreeOk(l, k)
    ensures TreeOk(l', Extend(k, l, l'))
  {
    var k' := Extend(k, l, l');
    forall c | c in k' ensures KinOk(l', k', c) {
      if c in k && c !in Born(l, l') { KinKept(l, l', k, k', c); } else { BornOk(l, l', k, c); }
    }
    forall c, d | c in k && d in Born(l, l') && k[c].depth > 0 && k'[d].depth > 0 ensures k[c].parent != k'[d].parent {
      assert KinOk(l, k, c);
      var p := Ender(l, l', k.Keys);
      assert EndsIn(l, l', p.value);
    }
  }

  ghost predicate GoodPair(l: Ledger, l': Ledger) { Inv(l) && Inv(l') && Moves(l, l') && Lineal(l, l') }

  lemma LinealAt(r: Run, i: nat)
    requires IsRun(r) && i < |r.steps|
    ensures GoodPair(r.states[i].l, r.states[i + 1].l)
  {
    InvAt(r, i);
    StepAt(r, i);
    StepKeepsInv(r.states[i], r.steps[i]);
    StepLineal(r.states[i], r.steps[i]);
  }

  lemma {:induction false} TreeInv(h: seq<Ledger>, n: nat)
    requires n < |h| && h[0] == EMPTY
    requires forall i, j :: 0 <= i && j == i + 1 && j < |h| ==> GoodPair(h[i], h[j])
    ensures TreeOk(h[n], Tree(h, n))
  {
    if n > 0 {
      TreeInv(h, n - 1);
      assert GoodPair(h[n - 1], h[n]);
      ExtendOk(h[n - 1], h[n], Tree(h, n - 1));
    }
  }

  // ----- the bound -----

  ghost function Below(k: map<TaskId, Kin>, root: TaskId): set<TaskId> {
    set c | c in k && k[c].root == root && k[c].depth > 0
  }

  /** One generation of a chain has one task. */
  lemma {:induction false} OnePerGeneration(l: Ledger, k: map<TaskId, Kin>, c: TaskId, d: TaskId)
    requires TreeOk(l, k) && c in k && d in k && k[c].root == k[d].root && k[c].depth == k[d].depth
    ensures c == d
    decreases k[c].depth
  {
    assert KinOk(l, k, c) && KinOk(l, k, d);
    if k[c].depth > 0 { OnePerGeneration(l, k, k[c].parent, k[d].parent); }
  }

  /** Below any enqueued task there are at most 8 derived tasks, at most one in each
      generation 1..8, each the child of the one before. */
  lemma ChainsAreShort(r: Run, n: nat, root: TaskId)
    requires IsRun(r) && n < |r.states|
    ensures var k := Tree(Ledgers(r), n);
            && |Below(k, root)| <= MAX_CALLBACK_DEPTH
            && (forall c, d :: c in Below(k, root) && d in Below(k, root) && k[c].depth == k[d].depth ==> c == d)
            && (forall c :: c in Below(k, root) ==>
                  && 1 <= k[c].depth <= MAX_CALLBACK_DEPTH
                  && k[c].parent in r.states[n].l.completeds
                  && (k[c].parent == root || k[c].parent in Below(k, root)))
  {
    var h := Ledgers(r);
    forall i, j | 0 <= i && j == i + 1 && j < |h| ensures GoodPair(h[i], h[j]) { LinealAt(r, i); }
    TreeInv(h, n);
    var l, k := r.states[n].l, Tree(Ledgers(r), n);
    forall c, d | c in Below(k, root) && d in Below(k, root) && k[c].depth == k[d].depth ensures c == d {
      OnePerGeneration(l, k, c, d);
    }
    forall c | c in Below(k, root)
      ensures 1 <= k[c].depth <= MAX_CALLBACK_DEPTH && k[c].parent in l.completeds
              && (k[c].parent == root || k[c].parent in Below(k, root))
    {
      assert KinOk(l, k, c) && KinOk(l, k, k[c].parent);
    }
    var depths := set c | c in Below(k, root) :: k[c].depth;
    CountByDepth(k, Below(k, root), depths);
    SmallSet(depths, MAX_CALLBACK_DEPTH);
  }

  lemma {:induction false} CountByDepth(k: map<TaskId, Kin>, s: set<TaskId>, depths: set<int>)
    requires s <= k.Keys && forall c :: c in s ==> k[c].depth in depths
    requires forall c, d :: c in s && d in s && k[c].depth == k[d].depth ==> c == d
    ensures |s| <= |depths|
    decreases |s|
  {
    if s != {} {
      var c := Member(s);
      CountByDepth(k, s - {c}, depths - {k[c].depth});
    }
  }
}
