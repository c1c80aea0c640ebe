/** The index of unacknowledged results: entries by key, their insertion order, and the
    byte total, with eviction of the oldest beyond a maximum. */
module WalIndex {
  import opened Collect

  datatype Key = Key(taskId: int, attempt: int)

  function KeyOf(ev: ResultEvent): Key { Key(ev.taskId, ev.attempt) }

  /** `size` is the encoded length of an event. */
  type Size = ResultEvent -> nat

  datatype Index = Index(entries: map<Key, ResultEvent>, order: seq<Key>, bytes: int)

  const NO_ENTRIES := Index(map[], [], 0)

  // ----- what the two operations do -----

  function Evict(size: Size, ix: Index, max: nat): Index
    decreases |ix.order|
  {
    if |ix.order| <= max then ix
    else
      var k := ix.order[0];
      var rest := ix.order[1..];
      if k in ix.entries then Evict(size, Index(ix.entries - {k}, rest, ix.bytes - size(ix.entries[k])), max)
      else Evict(size, ix.(order := rest), max)
  }

  /** The entry stored or overwritten, before any eviction. */
  function Put(size: Size, ix: Index, ev: ResultEvent): Index {
    var k := KeyOf(ev);
    Index(ix.entries[k := ev],
          if k in ix.entries then ix.order else ix.order + [k],
          (if k in ix.entries then ix.bytes - size(ix.entries[k]) else ix.bytes) + size(ev))
  }

  function AddTo(size: Size, ix: Index, ev: ResultEvent, max: nat): Index {
    Evict(size, Put(size, ix, ev), max)
  }

  function Without(order: seq<Key>, k: Key): seq<Key> {
    if order == [] then []
    else if order[0] == k then order[1..]
    else [order[0]] + Without(order[1..], k)
  }

  function AckFrom(size: Size, ix: Index, k: Key): Index {
    if k !in ix.entries then ix
    else Index(ix.entries - {k}, Without(ix.order, k), ix.bytes - size(ix.entries[k]))
  }

  function PendingOf(ix: Index): seq<ResultEvent>
    requires forall k :: k in ix.order ==> k in ix.entries
  {
    seq(|ix.order|, i requires 0 <= i < |ix.order| => ix.entries[ix.order[i]])
  }

  // ----- the invariant -----

  function Total(size: Size, entries: map<Key, ResultEvent>, order: seq<Key>): int
    requires forall k :: k in order ==> k in entries
  {
    if order == [] then 0 else Total(size, entries, order[..|order| - 1]) + size(entries[order[|order| - 1]])
  }

  ghost predicate Distinct(order: seq<Key>) {
    forall i, j :: 0 <= i < j < |order| ==> order[i] != order[j]
  }

  /** The order lists every entry once, each entry sits under its own key, and `bytes` is
      the sum of the sizes. */
  ghost predicate Consistent(size: Size, ix: Index) {
    && Distinct(ix.order)
    && (forall k :: k in ix.order <==> k in ix.entries)
    && (forall k :: k in ix.entries ==> KeyOf(ix.entries[k]) == k)
    && ix.bytes == Total(size, ix.entries, ix.order)
  }

  ghost predicate Sound(size: Size, ix: Index, max: nat) {
    Consistent(size, ix) && |ix.order| <= max
  }

  lemma {:induction false} TotalFrame(size: Size, e1: map<Key, ResultEvent>, e2: map<Key, ResultEvent>, order: seq<Key>)
    requires forall k :: k in order ==> k in e1 && k in e2 && e1[k] == e2[k]
    ensures Total(size, e1, order) == Total(size, e2, order)
  {
    if order != [] { TotalFrame(size, e1, e2, order[..|order| - 1]); }
  }

  lemma {:induction false} TotalSplit(size: Size, entries: map<Key, ResultEvent>, a: seq<Key>, b: seq<Key>)
    requires forall k :: k in a || k in b ==> k in entries
    ensures forall k :: k in a + b ==> k in entries
    ensures Total(size, entries, a + b) == Total(size, entries, a) + Total(size, entries, b)
  {
    if b == [] {
      assert a + b == a;
    } else {
      var c := b[..|b| - 1];
      assert (a + b)[..|a + b| - 1] == a + c;
      TotalSplit(size, entries, a, c);
    }
  }

  lemma TotalOne(size: Size, entries: map<Key, ResultEvent>, k: Key)
    requires k in entries
    ensures Total(size, entries, [k]) == size(entries[k])
  {
    assert [k][..0] == [];
  }

  /** Changing or removing one entry changes the total by the difference. */
  lemma TotalAround(size: Size, entries: map<Key, ResultEvent>, order: seq<Key>, i: nat)
    requires i < |order| && forall k :: k in order ==> k in entries
    ensures Total(size, entries, order) == Total(size, entries, order[..i] + order[i + 1..]) + size(entries[order[i]])
  {
    assert order == order[..i] + ([order[i]] + order[i + 1..]);
    TotalSplit(size, entries, order[..i], [order[i]] + order[i + 1..]);
    TotalSplit(size, entries, [order[i]], order[i + 1..]);
    TotalSplit(size, entries, order[..i], order[i + 1..]);
    TotalOne(size, entries, order[i]);
  }

  lemma OverwriteSound(size: Size, ix: Index, ev: ResultEvent)
    requires Consistent(size, ix) && KeyOf(ev) in ix.entries
    ensures Consistent(size, Put(size, ix, ev))
  {
    var k := KeyOf(ev);
    var after := Put(size, ix, ev);
    var i :| 0 <= i < |ix.order| && ix.order[i] == k;
    TotalAround(size, ix.entries, ix.order, i);
    TotalAround(size, after.entries, ix.order, i);
    TotalFrame(size, ix.entries, after.entries, ix.order[..i] + ix.order[i + 1..]);
  }

  lemma AppendKeys(order: seq<Key>, k: Key)
    requires Distinct(order) && k !in order
    ensures Distinct(order + [k]) && forall q :: q in order + [k] <==> q in order || q == k
  {
  }

  lemma AppendTotal(size: Size, entries: map<Key, ResultEvent>, order: seq<Key>, k: Key, ev: ResultEvent)
    requires (forall q :: q in order ==> q in entries) && k !in order
    ensures forall q :: q in order + [k] ==> q in entries[k := ev]
    ensures Total(size, entries[k := ev], order + [k]) == Total(size, entries, order) + size(ev)
  {
    assert (order + [k])[..|order|] == order;
    TotalFrame(size, entries, entries[k := ev], order);
  }

  lemma AppendSound(size: Size, ix: Index, ev: ResultEvent)
    requires Consistent(size, ix) && KeyOf(ev) !in ix.entries
    ensures Consistent(size, Put(size, ix, ev))
  {
    AppendKeys(ix.order, KeyOf(ev));
    AppendTotal(size, ix.entries, ix.order, KeyOf(ev), ev);
  }

  lemma PutSound(size: Size, ix: Index, ev: ResultEvent)
    requires Consistent(size, ix)
    ensures Consistent(size, Put(size, ix, ev))
  {
    if KeyOf(ev) in ix.entries { OverwriteSound(size, ix, ev); } else { AppendSound(size, ix, ev); }
  }

  lemma DropKeys(order: seq<Key>, i: nat)
    requires Distinct(order) && i < |order|
    ensures var rest := order[..i] + order[i + 1..];
            Distinct(rest) && forall q :: q in rest <==> q in order && q != order[i]
  {
    var rest := order[..i] + order[i + 1..];
    forall q | q in order && q != order[i] ensures q in rest {
      var j :| 0 <= j < |order| && order[j] == q;
      assert rest[if j < i then j else j - 1] == q;
    }
  }

  /** Without the i-th key and its entry. */
  function Dropped(size: Size, ix: Index, i: nat): Index
    requires i < |ix.order| && ix.order[i] in ix.entries
  {
    var k := ix.order[i];
    Index(ix.entries - {k}, ix.order[..i] + ix.order[i + 1..], ix.bytes - size(ix.entries[k]))
  }

  lemma DropSound(size: Size, ix: Index, i: nat)
    requires Consistent(size, ix) && i < |ix.order|
    ensures Consistent(size, Dropped(size, ix, i))
  {
    var k := ix.order[i];
    var order := ix.order[..i] + ix.order[i + 1..];
    DropKeys(ix.order, i);
    TotalAround(size, ix.entries, ix.order, i);
    TotalFrame(size, ix.entries, ix.entries - {k}, order);
  }

  function DropOldest(size: Size, ix: Index): Index
    requires ix.order != [] && ix.order[0] in ix.entries
  {
    var k := ix.order[0];
    Index(ix.entries - {k}, ix.order[1..], ix.bytes - size(ix.entries[k]))
  }

  lemma OldestIsFirst(size: Size, ix: Index)
    requires ix.order != [] && ix.order[0] in ix.entries
    ensures DropOldest(size, ix) == Dropped(size, ix, 0)
  {
    assert ix.order[..0] + ix.order[1..] == ix.order[1..];
  }

  lemma DropOldestSound(size: Size, ix: Index)
    requires Consistent(size, ix) && ix.order != []
    ensures Consistent(size, DropOldest(size, ix))
  {
    OldestIsFirst(size, ix);
    DropSound(size, ix, 0);
  }

  /** Eviction leaves a sound index. */
  lemma {:induction false} EvictSound(size: Size, ix: Index, max: nat)
    requires Consistent(size, ix)
    ensures Sound(size, Evict(size, ix, max), max)
    decreases |ix.order|
  {
    if |ix.order| > max {
      DropOldestSound(size, ix);
      EvictSound(size, DropOldest(size, ix), max);
    }
  }

  function Surplus(ix: Index, max: nat): nat { if |ix.order| > max then |ix.order| - max else 0 }

  lemma {:induction false} EvictDropsSurplus(size: Size, ix: Index, max: nat)
    requires Consistent(size, ix)
    ensures Evict(size, ix, max).order == ix.order[Surplus(ix, max)..]
    decreases |ix.order|
  {
    if |ix.order| > max {
      DropOldestSound(size, ix);
      EvictDropsSurplus(size, DropOldest(size, ix), max);
      assert ix.order[1..][Surplus(ix, max) - 1..] == ix.order[Surplus(ix, max)..];
    }
  }

  lemma {:induction false} EvictChangesNoEvent(size: Size, ix: Index, max: nat)
    requires Consistent(size, ix)
    ensures forall k :: k in Evict(size, ix, max).entries ==> k in ix.entries && Evict(size, ix, max).entries[k] == ix.entries[k]
    decreases |ix.order|
  {
    if |ix.order| > max {
      DropOldestSound(size, ix);
      EvictChangesNoEvent(size, DropOldest(size, ix), max);
    }
  }

  /** It keeps the most recently inserted entries, as many as fit, unchanged. */
  lemma EvictKeepsNewest(size: Size, ix: Index, max: nat)
    requires Consistent(size, ix)
    ensures Evict(size, ix, max).order == ix.order[if |ix.order| > max then |ix.order| - max else 0..]
    ensures forall k :: k in Evict(size, ix, max).entries ==> k in ix.entries && Evict(size, ix, max).entries[k] == ix.entries[k]
  {
    EvictDropsSurplus(size, ix, max);
    EvictChangesNoEvent(size, ix, max);
  }

  lemma AddSound(size: Size, ix: Index, ev: ResultEvent, max: nat)
    requires Sound(size, ix, max)
    ensures Sound(size, AddTo(size, ix, ev, max), max)
  {
    PutSound(size, ix, ev);
    EvictSound(size, Put(size, ix, ev), max);
  }

  lemma {:induction false} WithoutAt(order: seq<Key>, k: Key) returns (i: nat)
    requires k in order
    ensures i < |order| && order[i] == k && Without(order, k) == order[..i] + order[i + 1..]
  {
    if order[0] == k {
      i := 0;
    } else {
      var j := WithoutAt(order[1..], k);
      i := j + 1;
      assert [order[0]] + (order[1..][..j] + order[1..][j + 1..]) == order[..i] + order[i + 1..];
    }
  }

  lemma AckSound(size: Size, ix: Index, k: Key, max: nat)
    requires Sound(size, ix, max)
    ensures Sound(size, AckFrom(size, ix, k), max)
    ensures forall q :: q in AckFrom(size, ix, k).entries <==> q in ix.entries && q != k
  {
    if k in ix.entries {
      var i := WithoutAt(ix.order, k);
      DropSound(size, ix, i);
    }
  }

  // ----- by keys -----

  /** A full log given a new key loses its oldest entry. */
  lemma AddToFull(size: Size, ix: Index, ev: ResultEvent, max: nat)
    requires Sound(size, ix, max) && max > 0 && |ix.order| == max && KeyOf(ev) !in ix.entries
    ensures AddTo(size, ix, ev, max) == DropOldest(size, Put(size, ix, ev))
  {
    PutSound(size, ix, ev);
    var p := Put(size, ix, ev);
    assert |p.order| == max + 1;
    assert DropOldest(size, p) == Evict(size, DropOldest(size, p), max);
  }

  lemma OldestOfPut(size: Size, ix: Index, ev: ResultEvent)
    requires Consistent(size, ix) && ix.order != [] && KeyOf(ev) !in ix.entries
    ensures var k, p := KeyOf(ev), Put(size, ix, ev);
            && p.order[0] in p.entries && DropOldest(size, p).order == ix.order[1..] + [k]
            && DropOldest(size, p).entries == (ix.entries - {ix.order[0]})[k := ev]
  {
    assert Put(size, ix, ev).order[0] == ix.order[0] != KeyOf(ev);
  }

  /** What an add does to a sound index: an overwritten entry keeps its place, a new one comes
      last, and a full log loses its oldest. */
  lemma AddByKeys(size: Size, ix: Index, ev: ResultEvent, max: nat)
    requires Sound(size, ix, max) && max > 0
    ensures var k, after := KeyOf(ev), AddTo(size, ix, ev, max);
            if k in ix.entries then after.order == ix.order && after.entries == ix.entries[k := ev]
            else if |ix.order| < max then after.order == ix.order + [k] && after.entries == ix.entries[k := ev]
            else && ix.order != [] && after.order == ix.order[1..] + [k]
                 && after.entries == (ix.entries - {ix.order[0]})[k := ev]
  {
    if KeyOf(ev) !in ix.entries && |ix.order| == max {
      AddToFull(size, ix, ev, max);
      OldestOfPut(size, ix, ev);
    }
  }

  /** What an ack does: its key and entry go, the others keep their order; an unknown key does
      nothing. */
  lemma AckByKeys(size: Size, ix: Index, k: Key, max: nat) returns (a: seq<Key>, b: seq<Key>)
    requires Sound(size, ix, max)
    ensures k !in ix.entries ==> AckFrom(size, ix, k) == ix
    ensures k in ix.entries ==>
              && ix.order == a + [k] + b && AckFrom(size, ix, k).order == a + b
              && AckFrom(size, ix, k).entries == ix.entries - {k}
  {
    a, b := [], [];
    if k in ix.entries {
      var i := WithoutAt(ix.order, k);
      a, b := ix.order[..i], ix.order[i + 1..];
    }
  }
}
