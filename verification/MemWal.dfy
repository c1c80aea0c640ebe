/** The log of unacknowledged results kept in memory: the index, updated in place. */
module MemWal {
  import opened Collect
  import opened WalIndex

  const DEFAULT_WAL_MAX := 10000
  const DEFAULT_WAL_MAX_BYTES := 0x1000_0000

  class MemWAL {
    const max: nat
    const maxByte: int
    const size: Size
    var entries: map<Key, ResultEvent>
    var order: seq<Key>
    var bytes: int

    ghost function Ix(): Index
      reads this
    {
      Index(entries, order, bytes)
    }

    ghost predicate Valid()
      reads this
    {
      Sound(size, Ix(), max)
    }

    constructor (size: Size, max: int, maxByte: int)
      ensures Valid() && Ix() == NO_ENTRIES && this.size == size
      ensures this.max == if max <= 0 then DEFAULT_WAL_MAX else max
      ensures this.maxByte == if maxByte <= 0 then DEFAULT_WAL_MAX_BYTES else maxByte
    {
      this.size := size;
      this.max := if max <= 0 then DEFAULT_WAL_MAX else max;
      this.maxByte := if maxByte <= 0 then DEFAULT_WAL_MAX_BYTES else maxByte;
      entries, order, bytes := map[], [], 0;
    }

    /** Stores or overwrites, then drops the oldest entries beyond the maximum. */
    method Add(ev: ResultEvent)
      requires Valid()
      modifies `entries, `order, `bytes
      ensures Valid() && Ix() == AddTo(size, old(Ix()), ev, max)
    {
      var k := KeyOf(ev);
      if k in entries {
        bytes := bytes - size(entries[k]);
      } else {
        order := order + [k];
      }
      entries := entries[k := ev];
      bytes := bytes + size(ev);
      while |order| > max
        invariant Evict(size, Ix(), max) == AddTo(size, old(Ix()), ev, max)
        decreases |order|
      {
        var oldest := order[0];
        order := order[1..];
        if oldest in entries {
          bytes := bytes - size(entries[oldest]);
          entries := entries - {oldest};
        }
      }
      AddSound(size, old(Ix()), ev, max);
    }

    method Ack(taskId: int, attempt: int)
      requires Valid()
      modifies `entries, `order, `bytes
      ensures Valid() && Ix() == AckFrom(size, old(Ix()), Key(taskId, attempt))
    {
      var k := Key(taskId, attempt);
      AckSound(size, Ix(), k, max);
      if k !in entries { return; }
      bytes := bytes - size(entries[k]);
      entries := entries - {k};
      order := RemoveKey(order, k);
    }

    /** Cuts the first occurrence of the key out of the order. */
    static method RemoveKey(order: seq<Key>, k: Key) returns (r: seq<Key>)
      ensures r == Without(order, k)
    {
      for i := 0 to |order|
        invariant Without(order, k) == order[..i] + Without(order[i..], k)
      {
        if order[i] == k {
          assert order[i..][1..] == order[i + 1..];
          return order[..i] + order[i + 1..];
        }
        assert order[i..][1..] == order[i + 1..];
        assert order[..i + 1] == order[..i] + [order[i]];
      }
      return order;
    }

    /** The unacknowledged results in insertion order. */
    method Pending() returns (out: seq<ResultEvent>)
      requires Valid()
      ensures out == PendingOf(Ix())
    {
      out := [];
      for i := 0 to |order|
        invariant out == PendingOf(Ix())[..i]
      {
        if order[i] in entries { out := out + [entries[order[i]]]; }
      }
    }

    /** Whether new subscriptions should pause. */
    method HighWater() returns (r: bool)
      requires Valid()
      ensures r <==> |order| >= max || (maxByte > 0 && Total(size, entries, order) >= maxByte)
    {
      CountEntries(Ix());
      r := |entries| >= max || (maxByte > 0 && bytes >= maxByte);
    }

    lemma CountEntries(ix: Index)
      requires Consistent(size, ix)
      ensures |ix.entries| == |ix.order|
    {
      CountKeys(ix.order, ix.entries.Keys);
    }
  }

  lemma {:induction false} CountKeys(order: seq<Key>, keys: set<Key>)
    requires Distinct(order) && forall k :: k in order <==> k in keys
    ensures |keys| == |order|
    decreases |order|
  {
    if order == [] {
      assert keys == {};
    } else {
      var n := |order| - 1;
      CountKeys(order[..n], keys - {order[n]});
    }
  }
}
