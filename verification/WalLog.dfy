/** The byte file of the log: how records are written, how a scan reads them back, and
    when replaying the file rebuilds the live index. */
module WalLog {
  import opened Wrappers
  import opened Varint
  import opened Collect
  import opened WalIndex
  import opened Seqs

  /** Marshalling of events, taken as given: it may refuse an event, and what it writes it
      reads back. */
  datatype Codec = Codec(marshal: ResultEvent -> Option<Bytes>, unmarshal: Bytes -> Option<ResultEvent>, size: Size)

  ghost predicate Faithful(c: Codec) {
    && (forall e :: c.marshal(e).Some? ==>
          && c.unmarshal(c.marshal(e).value) == Some(e)
          && |c.marshal(e).value| == c.size(e) < TWO_64
          && IsInt64(e.taskId) && IsInt64(e.attempt))
    && (forall b :: c.unmarshal(b).Some? ==> c.marshal(c.unmarshal(b).value).Some?)
  }

  datatype Record = Added(ev: ResultEvent) | Acked(taskId: int, attempt: int)

  const ADD: Byte := 1
  const ACK: Byte := 2

  predicate Writable(c: Codec, r: Record) {
    match r
    case Added(ev) => c.marshal(ev).Some?
    case Acked(t, a) => IsInt64(t) && IsInt64(a)
  }

  function EncodeAdd(body: Bytes): Bytes { [ADD] + PutUvarint(|body|) + body }
  function EncodeAck(taskId: int, attempt: int): Bytes { [ACK] + PutVarint(taskId) + PutVarint(attempt) }

  ghost predicate AllWritable(c: Codec, rs: seq<Record>) {
    forall i :: 0 <= i < |rs| ==> Writable(c, rs[i])
  }

  /** An event that cannot be marshalled is left out. */
  function Encode(c: Codec, r: Record): Bytes {
    match r
    case Added(ev) => (match c.marshal(ev) case None => [] case Some(body) => EncodeAdd(body))
    case Acked(t, a) => EncodeAck(t, a)
  }

  function EncodeAll(c: Codec, rs: seq<Record>): Bytes {
    if rs == [] then [] else Encode(c, rs[0]) + EncodeAll(c, rs[1..])
  }

  lemma {:induction false} EncodeSnoc(c: Codec, rs: seq<Record>, r: Record)
    ensures EncodeAll(c, rs + [r]) == EncodeAll(c, rs) + Encode(c, r)
  {
    if rs == [] {
      assert [r][1..] == [];
    } else {
      assert (rs + [r])[1..] == rs[1..] + [r];
      EncodeSnoc(c, rs[1..], r);
      Assoc(Encode(c, rs[0]), EncodeAll(c, rs[1..]), Encode(c, r));
    }
  }

  lemma EncodeCons(c: Codec, r: Record, rs: seq<Record>)
    ensures EncodeAll(c, [r] + rs) == Encode(c, r) + EncodeAll(c, rs)
  {
    assert ([r] + rs)[1..] == rs;
  }

  // ----- reading -----

  /** How a scan ends: at a record boundary, inside a record, or at an unknown type byte. */
  datatype End = Clean | Torn | Foreign

  /** One record off the front: its meaning (an undecodable body means nothing) and the
      rest, or the reason to stop. */
  datatype Parsed = Stop(end: End) | Next(record: Option<Record>, rest: Bytes)

  function ParseAdd(c: Codec, s: Bytes): (p: Parsed)
    ensures p.Next? ==> |p.rest| <= |s|
    ensures p.Stop? ==> p.end.Torn?
  {
    match ReadUvarint(s)
    case None => Stop(Torn)
    case Some(r) =>
      if |r.1| < r.0 then Stop(Torn)
      else match c.unmarshal(r.1[..r.0])
           case None => Next(None, r.1[r.0..])
           case Some(ev) => Next(Some(Added(ev)), r.1[r.0..])
  }

  function ParseAck(s: Bytes): (p: Parsed)
    ensures p.Next? ==> |p.rest| <= |s|
    ensures p.Stop? ==> p.end.Torn?
  {
    match ReadVarint(s)
    case None => Stop(Torn)
    case Some(t) =>
      match ReadVarint(t.1)
      case None => Stop(Torn)
      case Some(a) => Next(Some(Acked(t.0, a.0)), a.1)
  }

  function Parse(c: Codec, s: Bytes): (p: Parsed)
    ensures p.Next? ==> |p.rest| < |s|
  {
    if s == [] then Stop(Clean)
    else if s[0] == ADD then ParseAdd(c, s[1..])
    else if s[0] == ACK then ParseAck(s[1..])
    else Stop(Foreign)
  }

  datatype Scanned = Scanned(records: seq<Record>, end: End)

  function Scan(c: Codec, s: Bytes): Scanned
    decreases |s|
  {
    match Parse(c, s)
    case Stop(e) => Scanned([], e)
    case Next(r, rest) =>
      var more := Scan(c, rest);
      Scanned(Listed(r) + more.records, more.end)
  }

  function Listed(r: Option<Record>): seq<Record> {
    match r
    case None => []
    case Some(x) => [x]
  }

  function Play(c: Codec, ix: Index, r: Record, max: nat): Index {
    match r
    case Added(ev) => AddTo(c.size, ix, ev, max)
    case Acked(t, a) => AckFrom(c.size, ix, Key(t, a))
  }

  function Fold(c: Codec, ix: Index, rs: seq<Record>, max: nat): Index
    decreases |rs|
  {
    if rs == [] then ix else Fold(c, Play(c, ix, rs[0], max), rs[1..], max)
  }

  /** What opening a file with these bytes rebuilds. */
  function Rebuild(c: Codec, file: Bytes, max: nat): Index {
    Fold(c, NO_ENTRIES, Scan(c, file).records, max)
  }

  // ----- scanning is compositional -----

  lemma {:induction false} FoldSplit(c: Codec, ix: Index, a: seq<Record>, b: seq<Record>, max: nat)
    ensures Fold(c, ix, a + b, max) == Fold(c, Fold(c, ix, a, max), b, max)
    decreases |a|
  {
    if a == [] {
      assert a + b == b;
    } else {
      assert (a + b)[1..] == a[1..] + b;
      FoldSplit(c, Play(c, ix, a[0], max), a[1..], b, max);
    }
  }

  /** Replaying a file is replaying its first record, then the rest. */
  lemma FoldParsed(c: Codec, ix: Index, s: Bytes, max: nat)
    requires Parse(c, s).Next?
    ensures var p := Parse(c, s);
            Fold(c, ix, Scan(c, s).records, max)
            == Fold(c, if p.record.Some? then Play(c, ix, p.record.value, max) else ix, Scan(c, p.rest).records, max)
  {
    var p := Parse(c, s);
    var more := Scan(c, p.rest).records;
    if p.record.Some? { assert ([p.record.value] + more)[1..] == more; } else { assert [] + more == more; }
  }

  lemma FoldOne(c: Codec, ix: Index, rs: seq<Record>, r: Record, max: nat)
    ensures Fold(c, ix, rs + [r], max) == Play(c, Fold(c, ix, rs, max), r, max)
  {
    FoldSplit(c, ix, rs, [r], max);
    assert [r][1..] == [];
  }

  lemma ParseExtends(c: Codec, s: Bytes, t: Bytes)
    ensures Parse(c, s).Next? ==> Parse(c, s + t) == Next(Parse(c, s).record, Parse(c, s).rest + t)
    ensures Parse(c, s) == Stop(Foreign) ==> Parse(c, s + t) == Stop(Foreign)
  {
    if s != [] {
      assert (s + t)[1..] == s[1..] + t;
      if s[0] == ADD && ParseAdd(c, s[1..]).Next? {
        UvarintExtends(s[1..], t, 0);
        var r := ReadUvarint(s[1..]).value;
        assert (r.1 + t)[..r.0] == r.1[..r.0] && (r.1 + t)[r.0..] == r.1[r.0..] + t;
      }
      if s[0] == ACK && ParseAck(s[1..]).Next? {
        UvarintExtends(s[1..], t, 0);
        UvarintExtends(ReadVarint(s[1..]).value.1, t, 0);
      }
    }
  }

  /** Where a scan stops: the bytes it makes nothing of. */
  function Tail(c: Codec, s: Bytes): Bytes
    decreases |s|
  {
    match Parse(c, s)
    case Stop(_) => s
    case Next(_, rest) => Tail(c, rest)
  }

  lemma {:induction false} TailStops(c: Codec, s: Bytes)
    ensures Parse(c, Tail(c, s)) == Stop(Scan(c, s).end)
    decreases |s|
  {
    if Parse(c, s).Next? { TailStops(c, Parse(c, s).rest); }
  }

  /** Whatever is appended is read together with the tail. */
  lemma {:induction false} ScanResumes(c: Codec, s: Bytes, t: Bytes)
    ensures var more := Scan(c, Tail(c, s) + t);
            Scan(c, s + t) == Scanned(Scan(c, s).records + more.records, more.end)
    decreases |s|
  {
    match Parse(c, s)
    case Stop(_) =>
      var more := Scan(c, s + t).records;
      assert [] + more == more;
    case Next(r, rest) =>
      ParseExtends(c, s, t);
      ScanResumes(c, rest, t);
      Assoc(Listed(r), Scan(c, rest).records, Scan(c, Tail(c, rest) + t).records);
  }

  lemma CleanTail(c: Codec, s: Bytes)
    requires Scan(c, s).end.Clean?
    ensures Tail(c, s) == []
  {
    TailStops(c, s);
  }

  /** After a clean scan whatever is appended is read on its own. */
  lemma ScanAppend(c: Codec, s: Bytes, t: Bytes)
    requires Scan(c, s).end.Clean?
    ensures Scan(c, s + t) == Scanned(Scan(c, s).records + Scan(c, t).records, Scan(c, t).end)
  {
    CleanTail(c, s);
    assert Tail(c, s) + t == t;
    ScanResumes(c, s, t);
  }

  /** A written record is read back as itself. */
  lemma ParseEncoded(c: Codec, r: Record, t: Bytes)
    requires Faithful(c) && Writable(c, r)
    ensures Parse(c, Encode(c, r) + t) == Next(Some(r), t)
  {
    var s := Encode(c, r) + t;
    match r
    case Added(ev) =>
      var body := c.marshal(ev).value;
      assert s[1..] == PutUvarint(|body|) + (body + t);
      ReadBackUvarint(|body|, body + t);
      assert (body + t)[..|body|] == body && (body + t)[|body|..] == t;
    case Acked(id, attempt) =>
      assert s[1..] == PutVarint(id) + (PutVarint(attempt) + t);
      ReadBackVarint(id, PutVarint(attempt) + t);
      ReadBackVarint(attempt, t);
  }

  /** A record cut short at any byte but its first is a torn tail. */
  lemma ParseCut(c: Codec, r: Record, n: nat)
    requires Faithful(c) && Writable(c, r) && 0 < n < |Encode(c, r)|
    ensures Parse(c, Encode(c, r)[..n]) == Stop(Torn)
  {
    var s := Encode(c, r)[..n];
    match r
    case Added(ev) => CutAdd(c, c.marshal(ev).value, s[1..]);
    case Acked(id, attempt) => CutAck(id, attempt, s[1..]);
  }

  lemma CutAdd(c: Codec, body: Bytes, s: Bytes)
    requires |body| < TWO_64 && |s| < |PutUvarint(|body|) + body| && s == (PutUvarint(|body|) + body)[..|s|]
    ensures ParseAdd(c, s) == Stop(Torn)
  {
    var head := PutUvarint(|body|);
    if |s| < |head| {
      assert s == head[..|s|];
      CutUvarint(|body|, |s|);
    } else {
      assert s == head + s[|head|..];
      ReadBackUvarint(|body|, s[|head|..]);
    }
  }

  lemma CutAck(id: int, attempt: int, s: Bytes)
    requires IsInt64(id) && IsInt64(attempt)
    requires |s| < |PutVarint(id) + PutVarint(attempt)| && s == (PutVarint(id) + PutVarint(attempt))[..|s|]
    ensures ParseAck(s) == Stop(Torn)
  {
    var head := PutVarint(id);
    if |s| < |head| {
      assert s == head[..|s|];
      CutVarint(id, |s|);
    } else {
      assert s == head + s[|head|..];
      ReadBackVarint(id, s[|head|..]);
      assert s[|head|..] == PutVarint(attempt)[..|s| - |head|];
      CutVarint(attempt, |s| - |head|);
    }
  }

  lemma ScanEncoded(c: Codec, r: Record)
    requires Faithful(c) && Writable(c, r)
    ensures Scan(c, Encode(c, r)) == Scanned([r], Clean)
  {
    ParseEncoded(c, r, []);
    assert Encode(c, r) + [] == Encode(c, r);
    assert [r] + [] == [r];
  }

  lemma ScanFirst(c: Codec, r: Record, t: Bytes)
    requires Faithful(c) && Writable(c, r)
    ensures Scan(c, Encode(c, r) + t) == Scanned([r] + Scan(c, t).records, Scan(c, t).end)
  {
    ParseEncoded(c, r, t);
  }

  lemma AllWritableRest(c: Codec, rs: seq<Record>)
    requires AllWritable(c, rs) && rs != []
    ensures Writable(c, rs[0]) && AllWritable(c, rs[1..])
  {
  }

  /** What was written is what a scan reads. */
  lemma {:induction false} ScanWritten(c: Codec, rs: seq<Record>)
    requires Faithful(c) && AllWritable(c, rs)
    ensures Scan(c, EncodeAll(c, rs)) == Scanned(rs, Clean)
  {
    if rs != [] {
      AllWritableRest(c, rs);
      ScanWritten(c, rs[1..]);
      ScanFirst(c, rs[0], EncodeAll(c, rs[1..]));
      assert [rs[0]] + rs[1..] == rs;
    }
  }

  /** Every prefix of a written file replays to the state after exactly the records that
      are whole in it: k records, where the next one does not fit any more. */
  lemma PrefixReplaysWholeRecords(c: Codec, rs: seq<Record>, n: nat, max: nat) returns (k: nat)
    requires Faithful(c) && AllWritable(c, rs) && n <= |EncodeAll(c, rs)|
    ensures k <= |rs| && |EncodeAll(c, rs[..k])| <= n && (k < |rs| ==> n < |EncodeAll(c, rs[..k + 1])|)
    ensures Rebuild(c, EncodeAll(c, rs)[..n], max) == Fold(c, NO_ENTRIES, rs[..k], max)
    ensures Scan(c, EncodeAll(c, rs)[..n]).end == if n == |EncodeAll(c, rs[..k])| then Clean else Torn
  {
    var whole, rest := WholeRecords(c, rs, n);
    k := |whole|;
    DropOfConcat(whole, rest);
    if rest != [] {
      EncodeSnoc(c, whole, rest[0]);
      TakeOfConcat(whole, rest, 1);
      assert rest[..1] == [rest[0]];
    }
  }

  /** These bytes hold these records and, unless they end right behind them, a torn one. */
  ghost predicate Holds(c: Codec, s: Bytes, whole: seq<Record>) {
    && |EncodeAll(c, whole)| <= |s|
    && Scan(c, s) == Scanned(whole, if |s| == |EncodeAll(c, whole)| then Clean else Torn)
  }

  lemma HoldsNone(c: Codec, r: Record, m: nat)
    requires Faithful(c) && Writable(c, r) && m < |Encode(c, r)|
    ensures Holds(c, Encode(c, r)[..m], [])
  {
    if m > 0 { ParseCut(c, r, m); }
  }

  lemma HoldsOneMore(c: Codec, r: Record, s: Bytes, whole: seq<Record>)
    requires Faithful(c) && Writable(c, r) && Holds(c, s, whole)
    ensures Holds(c, Encode(c, r) + s, [r] + whole)
  {
    ScanFirst(c, r, s);
    EncodeCons(c, r, whole);
  }

  /** The first n bytes hold the records `whole`; the first of the others does not fit. */
  ghost predicate Fits(c: Codec, rs: seq<Record>, n: nat, whole: seq<Record>, rest: seq<Record>) {
    && rs == whole + rest && n <= |EncodeAll(c, rs)|
    && (rest != [] ==> n < |EncodeAll(c, whole)| + |Encode(c, rest[0])|)
    && Holds(c, EncodeAll(c, rs)[..n], whole)
  }

  lemma FitsNone(c: Codec, rs: seq<Record>, n: nat)
    requires Faithful(c) && rs != [] && Writable(c, rs[0]) && n < |Encode(c, rs[0])|
    ensures Fits(c, rs, n, [], rs)
  {
    HoldsNone(c, rs[0], n);
    TakeOfLeft(Encode(c, rs[0]), EncodeAll(c, rs[1..]), n);
    assert [] + rs == rs;
  }

  lemma PrefixHoldsOneMore(c: Codec, r: Record, rs: seq<Record>, n: nat, whole: seq<Record>)
    requires Faithful(c) && Writable(c, r) && n <= |EncodeAll(c, rs)| && Holds(c, EncodeAll(c, rs)[..n], whole)
    ensures |Encode(c, r)| + n <= |EncodeAll(c, [r] + rs)|
    ensures Holds(c, EncodeAll(c, [r] + rs)[..|Encode(c, r)| + n], [r] + whole)
  {
    EncodeCons(c, r, rs);
    TakeOfConcat(Encode(c, r), EncodeAll(c, rs), n);
    HoldsOneMore(c, r, EncodeAll(c, rs)[..n], whole);
  }

  lemma FitsOneMore(c: Codec, r: Record, rs: seq<Record>, n: nat, whole: seq<Record>, rest: seq<Record>)
    requires Faithful(c) && Writable(c, r) && Fits(c, rs, n, whole, rest)
    ensures Fits(c, [r] + rs, |Encode(c, r)| + n, [r] + whole, rest)
  {
    PrefixHoldsOneMore(c, r, rs, n, whole);
    EncodeCons(c, r, whole);
    Assoc([r], whole, rest);
  }

  /** The records whole in the first n bytes, and the others. */
  lemma {:induction false} WholeRecords(c: Codec, rs: seq<Record>, n: nat) returns (whole: seq<Record>, rest: seq<Record>)
    requires Faithful(c) && AllWritable(c, rs) && n <= |EncodeAll(c, rs)|
    ensures Fits(c, rs, n, whole, rest)
    decreases |rs|
  {
    if rs == [] {
      whole, rest := [], [];
    } else {
      AllWritableRest(c, rs);
      var first := |Encode(c, rs[0])|;
      if n < first {
        whole, rest := [], rs;
        FitsNone(c, rs, n);
      } else {
        whole, rest := WholeRecords(c, rs[1..], n - first);
        FitsOneMore(c, rs[0], rs[1..], n - first, whole, rest);
        assert rs == [rs[0]] + rs[1..];
        whole := [rs[0]] + whole;
      }
    }
  }

  // ----- soundness of what is rebuilt -----

  ghost predicate AllMarshal(c: Codec, ix: Index) {
    forall k :: k in ix.entries ==> c.marshal(ix.entries[k]).Some?
  }

  ghost predicate Good(c: Codec, ix: Index, max: nat) {
    Sound(c.size, ix, max) && AllMarshal(c, ix)
  }

  lemma AddMarshals(c: Codec, ix: Index, ev: ResultEvent, max: nat)
    requires Good(c, ix, max) && c.marshal(ev).Some?
    ensures AllMarshal(c, AddTo(c.size, ix, ev, max))
  {
    PutSound(c.size, ix, ev);
    EvictKeepsNewest(c.size, Put(c.size, ix, ev), max);
  }

  lemma PlayGood(c: Codec, ix: Index, r: Record, max: nat)
    requires Good(c, ix, max) && (r.Added? ==> c.marshal(r.ev).Some?)
    ensures Good(c, Play(c, ix, r, max), max)
  {
    match r
    case Added(ev) =>
      AddSound(c.size, ix, ev, max);
      AddMarshals(c, ix, ev, max);
    case Acked(t, a) => AckSound(c.size, ix, Key(t, a), max);
  }

  lemma {:induction false} FoldGood(c: Codec, ix: Index, rs: seq<Record>, max: nat)
    requires Good(c, ix, max) && forall r :: r in rs && r.Added? ==> c.marshal(r.ev).Some?
    ensures Good(c, Fold(c, ix, rs, max), max)
    decreases |rs|
  {
    if rs != [] {
      PlayGood(c, ix, rs[0], max);
      FoldGood(c, Play(c, ix, rs[0], max), rs[1..], max);
    }
  }

  lemma {:induction false} ScanMarshals(c: Codec, s: Bytes)
    requires Faithful(c)
    ensures forall r :: r in Scan(c, s).records && r.Added? ==> c.marshal(r.ev).Some?
    decreases |s|
  {
    match Parse(c, s)
    case Stop(_) =>
    case Next(_, rest) => ScanMarshals(c, rest);
  }

  /** Whatever bytes are found, opening yields a sound index. */
  lemma RebuildGood(c: Codec, s: Bytes, max: nat)
    requires Faithful(c)
    ensures Good(c, Rebuild(c, s, max), max)
  {
    ScanMarshals(c, s);
    FoldGood(c, NO_ENTRIES, Scan(c, s).records, max);
  }

  // ----- compaction -----

  /** The records a compaction writes: one per pending entry, in order. */
  function Kept(ix: Index): (rs: seq<Record>)
    requires forall k :: k in ix.order ==> k in ix.entries
    ensures |rs| == |ix.order|
  {
    seq(|ix.order|, i requires 0 <= i < |ix.order| => Added(ix.entries[ix.order[i]]))
  }

  ghost function FirstOf(size: Size, ix: Index, n: nat): Index
    requires n <= |ix.order| && forall k :: k in ix.order ==> k in ix.entries
  {
    Index(map k | k in ix.order[..n] :: ix.entries[k], ix.order[..n], Total(size, ix.entries, ix.order[..n]))
  }

  lemma FirstOfStep(c: Codec, ix: Index, n: nat, max: nat)
    requires Sound(c.size, ix, max) && n < |ix.order|
    ensures AddTo(c.size, FirstOf(c.size, ix, n), ix.entries[ix.order[n]], max) == FirstOf(c.size, ix, n + 1)
  {
    var k := ix.order[n];
    assert ix.order[..n + 1] == ix.order[..n] + [k];
    assert ix.order[..n + 1][..n] == ix.order[..n];
    assert k !in ix.order[..n];
    assert FirstOf(c.size, ix, n).entries[k := ix.entries[k]] == FirstOf(c.size, ix, n + 1).entries;
  }

  lemma FoldKeptStep(c: Codec, ix: Index, rs: seq<Record>, n: nat, max: nat)
    requires Sound(c.size, ix, max) && n < |ix.order| && n < |rs| && rs[n] == Added(ix.entries[ix.order[n]])
    requires Fold(c, NO_ENTRIES, rs[..n], max) == FirstOf(c.size, ix, n)
    ensures Fold(c, NO_ENTRIES, rs[..n + 1], max) == FirstOf(c.size, ix, n + 1)
  {
    TakeSnoc(rs, n);
    FoldOne(c, NO_ENTRIES, rs[..n], rs[n], max);
    FirstOfStep(c, ix, n, max);
  }

  ghost predicate KeptAs(ix: Index, rs: seq<Record>) {
    && |rs| == |ix.order| && (forall k :: k in ix.order ==> k in ix.entries)
    && forall i :: 0 <= i < |rs| ==> rs[i] == Added(ix.entries[ix.order[i]])
  }

  lemma FoldNone(c: Codec, ix: Index, rs: seq<Record>, max: nat)
    requires KeptAs(ix, rs)
    ensures Fold(c, NO_ENTRIES, rs[..0], max) == FirstOf(c.size, ix, 0)
  {
    assert rs[..0] == [];
    assert FirstOf(c.size, ix, 0) == NO_ENTRIES;
  }

  lemma {:induction false} FoldKept(c: Codec, ix: Index, rs: seq<Record>, n: nat, max: nat)
    requires Sound(c.size, ix, max) && KeptAs(ix, rs) && n <= |rs|
    ensures Fold(c, NO_ENTRIES, rs[..n], max) == FirstOf(c.size, ix, n)
  {
    if n == 0 {
      FoldNone(c, ix, rs, max);
    } else {
      FoldKept(c, ix, rs, n - 1, max);
      FoldKeptStep(c, ix, rs, n - 1, max);
    }
  }

  lemma FirstOfAll(size: Size, ix: Index)
    requires Consistent(size, ix)
    ensures FirstOf(size, ix, |ix.order|) == ix
  {
    assert ix.order[..|ix.order|] == ix.order;
    assert (map k | k in ix.order :: ix.entries[k]) == ix.entries;
  }

  lemma KeptWritable(c: Codec, ix: Index, max: nat)
    requires Good(c, ix, max)
    ensures AllWritable(c, Kept(ix))
  {
  }

  lemma KeptFolds(c: Codec, ix: Index, max: nat)
    requires Good(c, ix, max)
    ensures Fold(c, NO_ENTRIES, Kept(ix), max) == ix
  {
    var rs := Kept(ix);
    assert KeptAs(ix, rs);
    FoldKept(c, ix, rs, |rs|, max);
    assert rs[..|rs|] == rs;
    FirstOfAll(c.size, ix);
  }

  /** The compacted file replays to the index it was written from, byte total included. */
  lemma CompactedReplays(c: Codec, ix: Index, max: nat)
    requires Faithful(c) && Good(c, ix, max)
    ensures AllWritable(c, Kept(ix))
    ensures Rebuild(c, EncodeAll(c, Kept(ix)), max) == ix && Scan(c, EncodeAll(c, Kept(ix))).end.Clean?
  {
    KeptWritable(c, ix, max);
    ScanWritten(c, Kept(ix));
    KeptFolds(c, ix, max);
  }

  /** A record whose length is right but whose body does not decode is skipped. */
  lemma UndecodableIsSkipped(c: Codec, body: Bytes, t: Bytes)
    requires |body| < TWO_64 && c.unmarshal(body).None?
    ensures Scan(c, EncodeAdd(body) + t) == Scan(c, t)
  {
    var s := EncodeAdd(body) + t;
    assert s[1..] == PutUvarint(|body|) + (body + t);
    ReadBackUvarint(|body|, body + t);
    DropOfConcat(body, t);
    assert Parse(c, s) == Next(None, t);
    assert [] + Scan(c, t).records == Scan(c, t).records;
  }

  /** The bytes of the two record types: 1, length and body; 2, task and attempt in ZigZag. */
  lemma RecordLayout(c: Codec, ev: ResultEvent, taskId: int, attempt: int)
    ensures c.marshal(ev).Some? ==>
              Encode(c, Added(ev)) == [1] + PutUvarint(|c.marshal(ev).value|) + c.marshal(ev).value
    ensures Encode(c, Acked(taskId, attempt))
            == [2] + PutUvarint(if taskId >= 0 then 2 * taskId else -2 * taskId - 1)
                   + PutUvarint(if attempt >= 0 then 2 * attempt else -2 * attempt - 1)
  {
  }
}
