/** Base 128 varints and ZigZag integers as the write-ahead log and the wire frames use
    them: at most ten bytes, the tenth no larger than 1. */
module Varint {
  import opened Wrappers

  type Byte = b: int | 0 <= b < 256
  type Bytes = seq<Byte>

  const MAX_VARINT_LEN := 10
  const TWO_63 := 0x8000_0000_0000_0000
  const TWO_64 := 0x1_0000_0000_0000_0000

  predicate IsInt64(x: int) { -TWO_63 <= x < TWO_63 }

  function PutUvarint(x: nat): (s: Bytes)
    ensures |s| > 0
  {
    if x < 128 then [x] else [x % 128 + 128] + PutUvarint(x / 128)
  }

  /** The value and what follows it; None for a truncated or overlong number. `i` bytes
      were read before. */
  function Uvarint(s: Bytes, i: nat): (r: Option<(nat, Bytes)>)
    requires i <= MAX_VARINT_LEN
    ensures r.Some? ==> |r.value.1| < |s|
    decreases MAX_VARINT_LEN - i
  {
    if s == [] || i == MAX_VARINT_LEN then None
    else if s[0] < 128 then
      if i == MAX_VARINT_LEN - 1 && s[0] > 1 then None else Some((s[0], s[1..]))
    else
      match Uvarint(s[1..], i + 1)
      case None => None
      case Some(r) => Some((s[0] - 128 + 128 * r.0, r.1))
  }

  function ReadUvarint(s: Bytes): (r: Option<(nat, Bytes)>)
    ensures r.Some? ==> |r.value.1| < |s|
  {
    Uvarint(s, 0)
  }

  function ZigZag(x: int): nat {
    if x >= 0 then 2 * x else -2 * x - 1
  }

  function UnZigZag(u: nat): int {
    if u % 2 == 0 then u / 2 else -(u / 2) - 1
  }

  function PutVarint(x: int): (s: Bytes)
    ensures |s| > 0
  {
    PutUvarint(ZigZag(x))
  }

  function ReadVarint(s: Bytes): (r: Option<(int, Bytes)>)
    ensures r.Some? ==> |r.value.1| < |s|
  {
    match ReadUvarint(s)
    case None => None
    case Some(r) => Some((UnZigZag(r.0), r.1))
  }

  /** One more than the largest value that fits when i bytes were read before. */
  function Limit(i: nat): nat
    requires i < MAX_VARINT_LEN
    decreases MAX_VARINT_LEN - i
  {
    if i == MAX_VARINT_LEN - 1 then 2 else 128 * Limit(i + 1)
  }

  lemma {:induction false} UvarintRoundTrip(x: nat, rest: Bytes, i: nat)
    requires i < MAX_VARINT_LEN && x < Limit(i)
    ensures Uvarint(PutUvarint(x) + rest, i) == Some((x, rest))
    decreases MAX_VARINT_LEN - i
  {
    var s := PutUvarint(x) + rest;
    if x < 128 {
      assert s[1..] == rest;
    } else {
      assert s[1..] == PutUvarint(x / 128) + rest;
      UvarintRoundTrip(x / 128, rest, i + 1);
    }
  }

  /** A number cut short is rejected. */
  lemma {:induction false} UvarintPrefix(x: nat, n: nat, i: nat)
    requires n < |PutUvarint(x)| && i <= MAX_VARINT_LEN
    ensures Uvarint(PutUvarint(x)[..n], i) == None
    decreases n
  {
    if n > 0 && i < MAX_VARINT_LEN {
      assert PutUvarint(x)[..n][1..] == PutUvarint(x / 128)[..n - 1];
      UvarintPrefix(x / 128, n - 1, i + 1);
    }
  }

  lemma ReadBackUvarint(x: nat, rest: Bytes)
    requires x < TWO_64
    ensures ReadUvarint(PutUvarint(x) + rest) == Some((x, rest))
  {
    assert Limit(7) == 128 * 128 * 2;
    assert Limit(4) == 128 * 128 * 128 * Limit(7);
    assert Limit(2) == 128 * 128 * Limit(4);
    assert Limit(0) == 128 * 128 * Limit(2);
    UvarintRoundTrip(x, rest, 0);
  }

  /** Every 64-bit integer, negative ones included, is read back with the rest of the input. */
  lemma ReadBackVarint(x: int, rest: Bytes)
    requires IsInt64(x)
    ensures ReadVarint(PutVarint(x) + rest) == Some((x, rest))
  {
    ReadBackUvarint(ZigZag(x), rest);
  }

  lemma CutUvarint(x: nat, n: nat)
    requires n < |PutUvarint(x)|
    ensures ReadUvarint(PutUvarint(x)[..n]) == None
  {
    UvarintPrefix(x, n, 0);
  }

  lemma CutVarint(x: int, n: nat)
    requires n < |PutVarint(x)|
    ensures ReadVarint(PutVarint(x)[..n]) == None
  {
    CutUvarint(ZigZag(x), n);
  }

  /** Reading never looks past what it consumes. */
  lemma {:induction false} UvarintExtends(s: Bytes, t: Bytes, i: nat)
    requires i <= MAX_VARINT_LEN && Uvarint(s, i).Some?
    ensures Uvarint(s + t, i) == Some((Uvarint(s, i).value.0, Uvarint(s, i).value.1 + t))
    decreases MAX_VARINT_LEN - i
  {
    assert (s + t)[1..] == s[1..] + t;
    if s[0] >= 128 { UvarintExtends(s[1..], t, i + 1); }
  }

  /** A number cut short and followed by the byte 1: that byte ends it, unless it was too
      long already. */
  lemma {:induction false} OneEndsUvarint(p: Bytes, rest: Bytes, i: nat)
    requires i <= MAX_VARINT_LEN && Uvarint(p, i) == None
    ensures Uvarint(p + [1] + rest, i)
            == match Uvarint(p + [1], i) case None => None case Some(r) => Some((r.0, rest))
    decreases |p|
  {
    if p == [] {
      assert p + [1] + rest == [1] + rest && p + [1] == [1];
      assert ([1] + rest)[1..] == rest;
    } else if p[0] >= 128 && i < MAX_VARINT_LEN {
      assert (p + [1] + rest)[1..] == p[1..] + [1] + rest && (p + [1])[1..] == p[1..] + [1];
      OneEndsUvarint(p[1..], rest, i + 1);
    }
  }

  /** The k-th byte ends a number of which i bytes were read before. */
  predicate EndsAt(s: Bytes, i: nat, k: nat) {
    && k < |s| && i + k < MAX_VARINT_LEN && s[k] < 128 && (forall j :: 0 <= j < k ==> s[j] >= 128)
    && (i + k == MAX_VARINT_LEN - 1 ==> s[k] <= 1)
  }

  /** Base 128, least significant digits first. */
  function Base128(s: Bytes): nat {
    if s == [] then 0 else s[0] % 128 + 128 * Base128(s[1..])
  }

  lemma {:induction false} UvarintAt(s: Bytes, i: nat, k: nat)
    requires i <= MAX_VARINT_LEN && EndsAt(s, i, k)
    ensures Uvarint(s, i) == Some((Base128(s[..k + 1]), s[k + 1..]))
    decreases k
  {
    assert s[..k + 1][1..] == s[1..][..k];
    if k > 0 {
      assert forall j :: 0 <= j < k - 1 ==> s[1..][j] == s[j + 1];
      UvarintAt(s[1..], i + 1, k - 1);
    } else {
      assert s[..1][1..] == [];
    }
  }

  lemma {:induction false} UvarintEnds(s: Bytes, i: nat) returns (k: nat)
    requires i <= MAX_VARINT_LEN && Uvarint(s, i).Some?
    ensures EndsAt(s, i, k)
    decreases MAX_VARINT_LEN - i
  {
    if s[0] < 128 {
      k := 0;
    } else {
      var j := UvarintEnds(s[1..], i + 1);
      k := j + 1;
      forall m | 0 <= m < k ensures s[m] >= 128 { if m > 0 { assert s[m] == s[1..][m - 1]; } }
    }
  }

  /** A number is read exactly when one of the first ten bytes ends it, a tenth being at most
      1; its value is that of its digits. */
  lemma ReadIff(s: Bytes)
    ensures ReadUvarint(s).Some? <==> exists k :: EndsAt(s, 0, k)
    ensures forall k :: EndsAt(s, 0, k) ==> ReadUvarint(s) == Some((Base128(s[..k + 1]), s[k + 1..]))
  {
    if ReadUvarint(s).Some? { var k := UvarintEnds(s, 0); }
    forall k | EndsAt(s, 0, k) ensures ReadUvarint(s) == Some((Base128(s[..k + 1]), s[k + 1..])) { UvarintAt(s, 0, k); }
  }
}
