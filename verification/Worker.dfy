/** The executor's side of a result: write it to the log, publish it, acknowledge it, and
    replay what is left. */
module Worker {
  import opened Collect
  import opened WalIndex
  import opened MemWal
  import opened Seqs

  // ----- any interleaving of executions and replay rounds -----

  /** The log index, and what happened so far: events written, events a sink accepted, and
      keys evicted because the log was over its maximum. */
  datatype Rt = Rt(ix: Index, recorded: set<ResultEvent>, published: set<ResultEvent>, evicted: set<Key>)

  /** The log operations and the sink calls of all threads, one at a time. Threads hold
      events they recorded or took from a snapshot, so any recorded event may be published
      at any later time, and any key with a published event acknowledged after that. */
  datatype Step = Record(ev: ResultEvent) | Publish(ev: ResultEvent) | Acknowledge(ev: ResultEvent)

  const IDLE := Rt(NO_ENTRIES, {}, {}, {})

  ghost predicate Enabled(s: Rt, step: Step) {
    match step
    case Record(_) => true
    case Publish(ev) => ev in s.recorded
    case Acknowledge(ev) => ev in s.published
  }

  ghost function Apply(size: Size, s: Rt, step: Step, max: nat): Rt {
    match step
    case Record(ev) =>
      var ix := AddTo(size, s.ix, ev, max);
      s.(ix := ix, recorded := s.recorded + {ev},
         evicted := s.evicted + (Put(size, s.ix, ev).entries.Keys - ix.entries.Keys))
    case Publish(ev) => s.(published := s.published + {ev})
    case Acknowledge(ev) => s.(ix := AckFrom(size, s.ix, KeyOf(ev)))
  }

  ghost predicate PublishedKey(s: Rt, k: Key) { exists p :: p in s.published && KeyOf(p) == k }

  ghost predicate KeyAccounted(s: Rt, k: Key) {
    k in s.ix.entries || k in s.evicted || PublishedKey(s, k)
  }

  ghost predicate RtInv(size: Size, s: Rt, max: nat) {
    && Sound(size, s.ix, max)
    && (forall k :: k in s.ix.entries ==> s.ix.entries[k] in s.recorded)
    && (forall ev :: ev in s.recorded ==> KeyAccounted(s, KeyOf(ev)))
    && s.published <= s.recorded
  }

  /** Eviction only happens to a full log that is given a new key, and it takes the oldest
      entries of the enlarged order. */
  lemma EvictsOnlyWhenFull(size: Size, ix: Index, ev: ResultEvent, max: nat, k: Key)
    requires Sound(size, ix, max)
    requires k in Put(size, ix, ev).entries && k !in AddTo(size, ix, ev, max).entries
    ensures |ix.order| == max && KeyOf(ev) !in ix.entries && Put(size, ix, ev).order[0] == k
  {
    var p := Put(size, ix, ev);
    PutSound(size, ix, ev);
    KeepsLast(size, p, max);
    var i :| 0 <= i < |p.order| && p.order[i] == k;
  }

  lemma KeepsLast(size: Size, p: Index, max: nat)
    requires Consistent(size, p)
    ensures forall j :: 0 <= j < |p.order| && j + max >= |p.order| ==> p.order[j] in Evict(size, p, max).entries
  {
    EvictKeepsNewest(size, p, max);
    EvictSound(size, p, max);
    var after := Evict(size, p, max);
    var start := if |p.order| > max then |p.order| - max else 0;
    forall j | start <= j < |p.order| ensures p.order[j] in after.entries {
      assert after.order[j - start] == p.order[j];
    }
  }

  lemma StepKeepsInv(size: Size, s: Rt, step: Step, max: nat)
    requires RtInv(size, s, max) && Enabled(s, step)
    ensures RtInv(size, Apply(size, s, step, max), max)
  {
    var s' := Apply(size, s, step, max);
    match step
    case Record(ev) =>
      AddSound(size, s.ix, ev, max);
      PutSound(size, s.ix, ev);
      EvictKeepsNewest(size, Put(size, s.ix, ev), max);
      forall e | e in s'.recorded ensures KeyAccounted(s', KeyOf(e)) {
        if e in s.recorded { assert KeyAccounted(s, KeyOf(e)); KeepsPublished(s, s', KeyOf(e)); }
      }
    case Publish(ev) =>
      forall e | e in s'.recorded ensures KeyAccounted(s', KeyOf(e)) {
        assert KeyAccounted(s, KeyOf(e));
        KeepsPublished(s, s', KeyOf(e));
      }
    case Acknowledge(ev) =>
      AckSound(size, s.ix, KeyOf(ev), max);
      forall e | e in s'.recorded ensures KeyAccounted(s', KeyOf(e)) {
        assert KeyAccounted(s, KeyOf(e));
        KeepsPublished(s, s', KeyOf(e));
        if KeyOf(e) == KeyOf(ev) { assert PublishedKey(s', KeyOf(e)); }
      }
  }

  lemma KeepsPublished(s: Rt, s': Rt, k: Key)
    requires s.published <= s'.published
    ensures PublishedKey(s, k) ==> PublishedKey(s', k)
  {
  }

  ghost predicate Legal(size: Size, s: Rt, steps: seq<Step>, max: nat)
    decreases |steps|
  {
    steps != [] ==> Enabled(s, steps[0]) && Legal(size, Apply(size, s, steps[0], max), steps[1..], max)
  }

  ghost function After(size: Size, s: Rt, steps: seq<Step>, max: nat): Rt
    decreases |steps|
  {
    if steps == [] then s else After(size, Apply(size, s, steps[0], max), steps[1..], max)
  }

  /** In any interleaving, every recorded key is pending, or a sink call for it succeeded,
      or it was evicted; the index stays sound throughout. */
  lemma {:induction false} NothingForgotten(size: Size, s: Rt, steps: seq<Step>, max: nat)
    requires RtInv(size, s, max) && Legal(size, s, steps, max)
    ensures RtInv(size, After(size, s, steps, max), max)
    decreases |steps|
  {
    if steps != [] {
      StepKeepsInv(size, s, steps[0], max);
      NothingForgotten(size, Apply(size, s, steps[0], max), steps[1..], max);
    }
  }

  ghost predicate EventAccounted(s: Rt, ev: ResultEvent) {
    (KeyOf(ev) in s.ix.entries && s.ix.entries[KeyOf(ev)] == ev) || KeyOf(ev) in s.evicted || ev in s.published
  }

  /** The same holds event by event as long as one key never names two different events. */
  lemma NoEventForgotten(size: Size, steps: seq<Step>, max: nat)
    requires Legal(size, IDLE, steps, max)
    requires var s := After(size, IDLE, steps, max);
             forall e, f :: e in s.recorded && f in s.recorded && KeyOf(e) == KeyOf(f) ==> e == f
    ensures var s := After(size, IDLE, steps, max);
            forall ev :: ev in s.recorded ==> EventAccounted(s, ev)
  {
    NothingForgotten(size, IDLE, steps, max);
    var s := After(size, IDLE, steps, max);
    forall ev | ev in s.recorded ensures EventAccounted(s, ev) {
      assert KeyAccounted(s, KeyOf(ev));
    }
  }

  /** Otherwise an event can be lost: acks name only the key, so the ack of the first
      outcome of an attempt removes a second, different one that was never published. */
  lemma AckForgetsSecondEvent(size: Size, first: ResultEvent, second: ResultEvent, max: nat)
    requires KeyOf(first) == KeyOf(second) && first != second && max > 0
    ensures var steps := [Record(first), Publish(first), Record(second), Acknowledge(first)];
            && Legal(size, IDLE, steps, max)
            && After(size, IDLE, steps, max).recorded == {first, second}
            && !EventAccounted(After(size, IDLE, steps, max), second)
  {
    var s1 := Apply(size, IDLE, Record(first), max);
    var s2 := Apply(size, s1, Publish(first), max);
    var s3 := Apply(size, s2, Record(second), max);
    var s4 := Apply(size, s3, Acknowledge(first), max);
    var steps := [Record(first), Publish(first), Record(second), Acknowledge(first)];
    assert s1.ix == Put(size, NO_ENTRIES, first) && s3.ix == Put(size, s1.ix, second);
    var t1, t2, t3 := steps[1..], steps[1..][1..], steps[1..][1..][1..];
    assert t3 == [Acknowledge(first)] && t3[1..] == [];
    assert Legal(size, s3, t3, max) && After(size, s3, t3, max) == s4;
    assert t2[0] == Record(second) && Legal(size, s2, t2, max) && After(size, s2, t2, max) == s4;
    assert t1[0] == Publish(first) && Legal(size, s1, t1, max) && After(size, s1, t1, max) == s4;
  }

  /** Everything recorded comes from these events. */
  ghost predicate Only(size: Size, steps: seq<Step>, evs: set<ResultEvent>, max: nat) {
    Legal(size, IDLE, steps, max) && After(size, IDLE, steps, max).recorded <= evs
  }

  ghost predicate AllAccounted(s: Rt) { forall ev :: ev in s.recorded ==> EventAccounted(s, ev) }

  ghost predicate KeysTell(evs: set<ResultEvent>) {
    forall e, f :: e in evs && f in evs && KeyOf(e) == KeyOf(f) ==> e == f
  }

  /** No interleaving loses an event of this family exactly when no two of them share a key. */
  lemma EventsKeptIff(size: Size, evs: set<ResultEvent>, max: nat)
    requires max > 0
    ensures (forall steps :: Only(size, steps, evs, max) ==> AllAccounted(After(size, IDLE, steps, max))) <==> KeysTell(evs)
  {
    if KeysTell(evs) {
      forall steps | Only(size, steps, evs, max) ensures AllAccounted(After(size, IDLE, steps, max)) {
        NoEventForgotten(size, steps, max);
      }
    } else {
      var e, f :| e in evs && f in evs && KeyOf(e) == KeyOf(f) && e != f;
      var steps := [Record(e), Publish(e), Record(f), Acknowledge(e)];
      AckForgetsSecondEvent(size, e, f, max);
      assert Only(size, steps, evs, max) && !AllAccounted(After(size, IDLE, steps, max));
    }
  }

  // ----- the two methods, alone -----

  /** The index after the first n results of a snapshot were offered to the sink. */
  function AckFirst(size: Size, ix: Index, evs: seq<ResultEvent>, n: nat, accepts: ResultEvent -> bool): Index
    requires n <= |evs|
  {
    if n == 0 then ix
    else
      var before := AckFirst(size, ix, evs, n - 1, accepts);
      if accepts(evs[n - 1]) then AckFrom(size, before, KeyOf(evs[n - 1])) else before
  }

  class Runtime {
    const wal: MemWAL

    constructor (wal: MemWAL)
      ensures this.wal == wal
    {
      this.wal := wal;
    }

    /** Write first, publish then, acknowledge only what the sink accepted. */
    method RecordAndPublish(ev: ResultEvent, hasSink: bool, accepted: bool)
      requires wal.Valid()
      modifies wal`entries, wal`order, wal`bytes
      ensures wal.Valid()
      ensures var added := AddTo(wal.size, old(wal.Ix()), ev, wal.max);
              wal.Ix() == if hasSink && accepted then AckFrom(wal.size, added, KeyOf(ev)) else added
    {
      wal.Add(ev);
      if !hasSink { return; }
      if accepted { wal.Ack(ev.taskId, ev.attempt); }
    }

    /** One replay round over a snapshot of the pending results, stopped when the context
        is cancelled after `budget` of them. */
    method Replay(hasSink: bool, accepts: ResultEvent -> bool, budget: nat)
      requires wal.Valid()
      modifies wal`entries, wal`order, wal`bytes
      ensures wal.Valid()
      ensures var all := PendingOf(old(wal.Ix()));
              wal.Ix() == if hasSink then AckFirst(wal.size, old(wal.Ix()), all, if budget < |all| then budget else |all|, accepts)
                          else old(wal.Ix())
    {
      if !hasSink { return; }
      var all := wal.Pending();
      var i := 0;
      while i < |all| && i < budget
        invariant i <= |all| && i <= budget && wal.Valid()
        invariant wal.Ix() == AckFirst(wal.size, old(wal.Ix()), all, i, accepts)
        decreases |all| - i
      {
        if accepts(all[i]) { wal.Ack(all[i].taskId, all[i].attempt); }
        i := i + 1;
      }
    }
  }

  // ----- what an undisturbed replay round leaves -----

  /** Keys of the first n pending entries that the sink refuses. */
  ghost function Kept(ix: Index, n: nat, accepts: ResultEvent -> bool): seq<Key>
    requires n <= |ix.order| && forall k :: k in ix.order ==> k in ix.entries
    decreases n
  {
    if n == 0 then []
    else Kept(ix, n - 1, accepts) + if accepts(ix.entries[ix.order[n - 1]]) then [] else [ix.order[n - 1]]
  }

  lemma {:induction false} KeptEarlier(ix: Index, n: nat, accepts: ResultEvent -> bool, k: Key)
    requires n <= |ix.order| && forall k :: k in ix.order ==> k in ix.entries
    ensures k in Kept(ix, n, accepts) ==> k in ix.order[..n] && !accepts(ix.entries[k])
  {
    if n > 0 {
      KeptEarlier(ix, n - 1, accepts, k);
      assert ix.order[..n] == ix.order[..n - 1] + [ix.order[n - 1]];
    }
  }

  lemma {:induction false} WithoutMiddle(a: seq<Key>, k: Key, b: seq<Key>)
    requires k !in a
    ensures Without(a + [k] + b, k) == a + b
  {
    if a == [] {
      assert a + [k] + b == [k] + b && ([k] + b)[1..] == b;
      assert [] + b == b;
    } else {
      assert (a + [k] + b)[1..] == a[1..] + [k] + b;
      WithoutMiddle(a[1..], k, b);
      assert [a[0]] + (a[1..] + b) == a + b;
    }
  }

  /** What is left after the first n entries of an undisturbed round: the refused ones and
      the untouched rest, in order, with their events. */
  ghost predicate Leaves(ix: Index, n: nat, accepts: ResultEvent -> bool, after: Index)
    requires n <= |ix.order| && forall k :: k in ix.order ==> k in ix.entries
  {
    && after.order == Kept(ix, n, accepts) + ix.order[n..]
    && forall k :: k in after.entries ==> k in ix.entries && after.entries[k] == ix.entries[k]
  }

  lemma AcceptedOrder(order: seq<Key>, a: seq<Key>, whole: seq<Key>, n: nat)
    requires n < |whole| && order == a + whole[n..] && whole[n] !in a
    ensures whole[n] in order && Without(order, whole[n]) == a + whole[n + 1..]
  {
    var b := whole[n + 1..];
    assert whole[n..] == [whole[n]] + b;
    Assoc(a, [whole[n]], b);
    WithoutMiddle(a, whole[n], b);
    assert order[|a|] == whole[n];
  }

  lemma AcceptedLeaves(size: Size, ix: Index, n: nat, accepts: ResultEvent -> bool, max: nat, before: Index)
    requires Sound(size, ix, max) && n < |ix.order| && accepts(ix.entries[ix.order[n]])
    requires Sound(size, before, max) && Leaves(ix, n, accepts, before)
    ensures Leaves(ix, n + 1, accepts, AckFrom(size, before, ix.order[n]))
  {
    var k := ix.order[n];
    KeptEarlier(ix, n, accepts, k);
    AcceptedOrder(before.order, Kept(ix, n, accepts), ix.order, n);
    assert Kept(ix, n + 1, accepts) == Kept(ix, n, accepts);
  }

  lemma RefusedLeaves(ix: Index, n: nat, accepts: ResultEvent -> bool, before: Index)
    requires n < |ix.order| && forall k :: k in ix.order ==> k in ix.entries
    requires !accepts(ix.entries[ix.order[n]]) && Leaves(ix, n, accepts, before)
    ensures Leaves(ix, n + 1, accepts, before)
  {
    assert ix.order[n..] == [ix.order[n]] + ix.order[n + 1..];
  }

  lemma LeavesStep(size: Size, ix: Index, n: nat, accepts: ResultEvent -> bool, max: nat, before: Index)
    requires Sound(size, ix, max) && n < |ix.order|
    requires Sound(size, before, max) && Leaves(ix, n, accepts, before)
    ensures var ev := ix.entries[ix.order[n]];
            var after := if accepts(ev) then AckFrom(size, before, KeyOf(ev)) else before;
            Sound(size, after, max) && Leaves(ix, n + 1, accepts, after)
  {
    var k := ix.order[n];
    if accepts(ix.entries[k]) {
      AckSound(size, before, k, max);
      AcceptedLeaves(size, ix, n, accepts, max, before);
    } else {
      RefusedLeaves(ix, n, accepts, before);
    }
  }

  lemma {:induction false} AckFirstLeaves(size: Size, ix: Index, evs: seq<ResultEvent>, n: nat, accepts: ResultEvent -> bool, max: nat)
    requires Sound(size, ix, max) && n <= |ix.order| == |evs|
    requires forall i :: 0 <= i < |evs| ==> evs[i] == ix.entries[ix.order[i]]
    ensures var after := AckFirst(size, ix, evs, n, accepts);
            Sound(size, after, max) && Leaves(ix, n, accepts, after)
  {
    if n == 0 {
      assert ix.order[0..] == ix.order && [] + ix.order == ix.order;
    } else {
      AckFirstLeaves(size, ix, evs, n - 1, accepts, max);
      LeavesStep(size, ix, n - 1, accepts, max, AckFirst(size, ix, evs, n - 1, accepts));
    }
  }

  /** A full round leaves exactly the results the sink refused. */
  lemma ReplayLeavesRefused(size: Size, ix: Index, accepts: ResultEvent -> bool, max: nat)
    requires Sound(size, ix, max)
    ensures var after := AckFirst(size, ix, PendingOf(ix), |ix.order|, accepts);
            && Sound(size, after, max)
            && (forall k :: k in after.entries <==> k in ix.entries && !accepts(ix.entries[k]))
            && forall k :: k in after.entries ==> after.entries[k] == ix.entries[k]
  {
    var n := |ix.order|;
    AckFirstLeaves(size, ix, PendingOf(ix), n, accepts, max);
    var after := AckFirst(size, ix, PendingOf(ix), n, accepts);
    assert after.order == Kept(ix, n, accepts);
    forall k ensures k in after.entries <==> k in ix.entries && !accepts(ix.entries[k]) {
      KeptEarlier(ix, n, accepts, k);
      assert ix.order[..n] == ix.order;
      if k in ix.entries && !accepts(ix.entries[k]) { RefusedKept(ix, n, accepts, k); }
    }
  }

  lemma {:induction false} RefusedKept(ix: Index, n: nat, accepts: ResultEvent -> bool, k: Key)
    requires n <= |ix.order| && forall k :: k in ix.order ==> k in ix.entries
    requires k in ix.order[..n] && !accepts(ix.entries[k])
    ensures k in Kept(ix, n, accepts)
  {
    assert ix.order[..n] == ix.order[..n - 1] + [ix.order[n - 1]];
    if k != ix.order[n - 1] { RefusedKept(ix, n - 1, accepts, k); }
  }
}
