/** Appending behind a tail that replay makes nothing of: when a log opened on such a file
    still gives back its live state, and what it loses when not. */
module WalTails {
  import opened Wrappers
  import opened Seqs
  import opened Varint
  import opened Collect
  import opened WalIndex
  import opened WalLog
  import opened WalFile

  // ----- what an appended record turns into -----

  lemma AppendedBehind(c: Codec, file: Bytes, t: Bytes, max: nat)
    ensures Rebuild(c, file + t, max) == Fold(c, Rebuild(c, file, max), Scan(c, Tail(c, file) + t).records, max)
  {
    ScanResumes(c, file, t);
    FoldSplit(c, NO_ENTRIES, Scan(c, file).records, Scan(c, Tail(c, file) + t).records, max);
  }

  /** Bytes a record may not begin with, if it is to stop a scan that starts at them. */
  predicate NoType(s: Bytes) { s == [] || (s[0] != ADD && s[0] != ACK) }

  lemma NoTypeReadsNothing(c: Codec, s: Bytes)
    requires NoType(s)
    ensures Scan(c, s).records == []
  {
  }

  // ----- behind a foreign byte -----

  /** Behind a foreign byte nothing that is appended is ever read again: a restart gives
      back the live index exactly when it is still the one found at opening. */
  lemma ForeignTailLosesAppends(c: Codec, file: Bytes, appended: Bytes, live: Index, max: nat)
    requires Scan(c, file).end.Foreign?
    ensures Rebuild(c, file + appended, max) == live <==> live == Rebuild(c, file, max)
  {
    TailStops(c, file);
    ParseExtends(c, Tail(c, file), appended);
    AppendedBehind(c, file, appended, max);
  }

  // ----- behind a torn ack -----

  predicate Bland(body: Bytes) { |body| != 1 && |body| != 2 && |body| < TWO_64 && NoType(body) }

  lemma LengthIsNoType(body: Bytes, rest: Bytes)
    requires Bland(body)
    ensures NoType(PutUvarint(|body|) + rest)
  {
  }

  /** The first byte of the record completes the number the ack was torn in, and at most one
      ack of some other key comes out. */
  lemma TornAckSwallows(c: Codec, tail: Bytes, body: Bytes) returns (k: Key)
    requires tail != [] && tail[0] == ACK && Parse(c, tail) == Stop(Torn) && Bland(body)
    ensures var rs := Scan(c, tail + EncodeAdd(body)).records; rs == [] || rs == [Acked(k.taskId, k.attempt)]
  {
    var p, x := tail[1..], PutUvarint(|body|) + body;
    assert (tail + EncodeAdd(body))[1..] == p + [1] + x;
    NoTypeReadsNothing(c, body);
    LengthIsNoType(body, body);
    NoTypeReadsNothing(c, x);
    k := Key(0, 0);
    if ReadVarint(p).None? {
      OneEndsUvarint(p, x, 0);
      ReadBackUvarint(|body|, body);
      if ReadVarint(p + [1] + x).Some? {
        k := Key(ReadVarint(p + [1] + x).value.0, UnZigZag(|body|));
        assert Parse(c, tail + EncodeAdd(body)) == Next(Some(Acked(k.taskId, k.attempt)), body);
        assert [Acked(k.taskId, k.attempt)] + [] == [Acked(k.taskId, k.attempt)];
      }
    } else {
      var q := ReadVarint(p).value.1;
      Assoc(p, [1], x);
      Assoc(q, [1], x);
      UvarintExtends(p, [1] + x, 0);
      OneEndsUvarint(q, x, 0);
      if ReadVarint(q + [1] + x).Some? {
        k := Key(ReadVarint(p).value.0, ReadVarint(q + [1] + x).value.0);
        assert Parse(c, tail + EncodeAdd(body)) == Next(Some(Acked(k.taskId, k.attempt)), x);
        assert [Acked(k.taskId, k.attempt)] + [] == [Acked(k.taskId, k.attempt)];
      }
    }
  }

  ghost predicate EndsTorn(c: Codec, file: Bytes, kind: Byte) {
    Scan(c, file).end.Torn? && Tail(c, file) != [] && Tail(c, file)[0] == kind
  }

  /** A log whose last ack was torn, at whatever byte, then opened and given a new result: the
      result is pending, but the next opening has lost it. */
  lemma TornAckLosesNextAdd(c: Codec, file: Bytes, ev: ResultEvent, max: nat)
    requires Faithful(c) && max > 0 && EndsTorn(c, file, ACK)
    requires c.marshal(ev).Some? && Bland(c.marshal(ev).value) && KeyOf(ev) !in Rebuild(c, file, max).entries
    ensures var after := DoAdd(c, Open(c, file, max), ev, max);
            KeyOf(ev) in after.ix.entries && KeyOf(ev) !in Rebuild(c, after.file, max).entries
  {
    var ix := Rebuild(c, file, max);
    RebuildGood(c, file, max);
    NewestSurvives(c.size, ix, ev, max);
    TailStops(c, file);
    AppendedBehind(c, file, Encode(c, Added(ev)), max);
    var k := TornAckSwallows(c, Tail(c, file), c.marshal(ev).value);
    FoldAck(c, ix, k, max);
  }

  lemma FoldAck(c: Codec, ix: Index, k: Key, max: nat)
    ensures Fold(c, ix, [Acked(k.taskId, k.attempt)], max) == AckFrom(c.size, ix, k)
  {
    FoldOne(c, ix, [], Acked(k.taskId, k.attempt), max);
    assert [] + [Acked(k.taskId, k.attempt)] == [Acked(k.taskId, k.attempt)];
  }

  // ----- behind a torn add -----

  /** How many more bytes the torn record takes before it is read as complete, if the next
      byte is the type of an added record. */
  function Need(tail: Bytes): nat
    requires tail != []
  {
    match ReadUvarint(tail[1..])
    case Some(r) => if r.0 > |r.1| then r.0 - |r.1| else 0
    case None =>
      match ReadUvarint(tail[1..] + [ADD])
      case None => 1
      case Some(r) => 1 + r.0
  }

  /** What a torn add reads, once it got these bytes. */
  function Swallowed(c: Codec, tail: Bytes, part: Bytes): seq<Record>
    requires tail != [] && part != []
  {
    match ReadUvarint(tail[1..])
    case Some(r) => Listed(AddedOf(c, r.1 + part))
    case None => if ReadUvarint(tail[1..] + [ADD]).None? then [] else Listed(AddedOf(c, part[1..]))
  }

  function AddedOf(c: Codec, body: Bytes): Option<Record> {
    match c.unmarshal(body) case None => None case Some(ev) => Some(Added(ev))
  }

  lemma ReadsThenStops(c: Codec, s: Bytes, r: Option<Record>, rest: Bytes)
    requires Parse(c, s) == Next(r, rest) && NoType(rest)
    ensures Scan(c, s).records == Listed(r)
  {
    NoTypeReadsNothing(c, rest);
    assert Listed(r) + [] == Listed(r);
  }

  predicate TornAdd(c: Codec, tail: Bytes) {
    tail != [] && tail[0] == ADD && Parse(c, tail) == Stop(Torn)
  }

  /** Torn inside the body. */
  lemma TornBodyReads(c: Codec, tail: Bytes, part: Bytes, rest: Bytes)
    requires TornAdd(c, tail) && ReadUvarint(tail[1..]).Some?
    requires |part| == Need(tail) && NoType(rest)
    ensures Scan(c, tail + (part + rest)).records == Swallowed(c, tail, part)
  {
    var p := tail[1..];
    var r := ReadUvarint(p).value;
    assert (tail + (part + rest))[1..] == p + (part + rest);
    UvarintExtends(p, part + rest, 0);
    Assoc(r.1, part, rest);
    DropOfConcat(r.1 + part, rest);
    ReadsThenStops(c, tail + (part + rest), AddedOf(c, r.1 + part), rest);
  }

  lemma TornBodyLacks(c: Codec, tail: Bytes, x: Bytes)
    requires TornAdd(c, tail) && ReadUvarint(tail[1..]).Some? && |x| < Need(tail)
    ensures Scan(c, tail + x).records == []
  {
    assert (tail + x)[1..] == tail[1..] + x;
    UvarintExtends(tail[1..], x, 0);
  }

  lemma LengthCompleted(c: Codec, p: Bytes, y: Bytes, rest: Bytes)
    requires ReadUvarint(p).None? && ReadUvarint(p + [ADD]).Some? && ReadUvarint(p + [ADD]).value.0 == |y|
    ensures ParseAdd(c, p + [ADD] + (y + rest)) == Next(AddedOf(c, y), rest)
  {
    OneEndsUvarint(p, y + rest, 0);
    DropOfConcat(y, rest);
  }

  lemma LengthLacks(c: Codec, p: Bytes, y: Bytes)
    requires ReadUvarint(p).None?
    requires ReadUvarint(p + [ADD]).Some? ==> |y| < ReadUvarint(p + [ADD]).value.0
    ensures ParseAdd(c, p + [ADD] + y) == Stop(Torn)
  {
    OneEndsUvarint(p, y, 0);
  }

  lemma ParseBehind(c: Codec, tail: Bytes, x: Bytes)
    requires tail != [] && tail[0] == ADD && x != [] && x[0] == ADD
    ensures Parse(c, tail + x) == ParseAdd(c, tail[1..] + [ADD] + x[1..])
  {
    assert (tail + x)[1..] == tail[1..] + [ADD] + x[1..];
  }

  lemma StopsAtOnce(c: Codec, s: Bytes)
    requires Parse(c, s).Stop?
    ensures Scan(c, s).records == []
  {
  }

  /** Torn inside the length, which the type byte of the next record completes. */
  lemma TornLengthReads(c: Codec, tail: Bytes, y: Bytes, rest: Bytes)
    requires TornAdd(c, tail) && ReadUvarint(tail[1..]).None?
    requires ReadUvarint(tail[1..] + [ADD]).Some? ==> ReadUvarint(tail[1..] + [ADD]).value.0 == |y| && NoType(rest)
    ensures var r := if ReadUvarint(tail[1..] + [ADD]).Some? then AddedOf(c, y) else None;
            Scan(c, tail + ([ADD] + (y + rest))).records == Listed(r)
  {
    var x := [ADD] + (y + rest);
    DropOfConcat([ADD], y + rest);
    ParseBehind(c, tail, x);
    if ReadUvarint(tail[1..] + [ADD]).Some? {
      LengthCompleted(c, tail[1..], y, rest);
      ReadsThenStops(c, tail + x, AddedOf(c, y), rest);
    } else {
      LengthLacks(c, tail[1..], y + rest);
      StopsAtOnce(c, tail + x);
    }
  }

  lemma TornLengthLacks(c: Codec, tail: Bytes, x: Bytes)
    requires TornAdd(c, tail) && ReadUvarint(tail[1..]).None? && x != [] && x[0] == ADD && |x| < Need(tail)
    ensures Scan(c, tail + x).records == []
  {
    ParseBehind(c, tail, x);
    LengthLacks(c, tail[1..], x[1..]);
    StopsAtOnce(c, tail + x);
  }

  lemma TornAddTakes(c: Codec, tail: Bytes, part: Bytes, rest: Bytes)
    requires TornAdd(c, tail) && part != [] && part[0] == ADD && |part| == Need(tail) && NoType(rest)
    ensures Scan(c, tail + (part + rest)).records == Swallowed(c, tail, part)
  {
    if ReadUvarint(tail[1..]).Some? {
      TornBodyReads(c, tail, part, rest);
    } else {
      assert part == [ADD] + part[1..];
      Assoc([ADD], part[1..], rest);
      TornLengthReads(c, tail, part[1..], rest);
    }
  }

  /** What a torn add makes of a record behind it. */
  lemma TornAddReads(c: Codec, tail: Bytes, x: Bytes)
    requires TornAdd(c, tail) && x != [] && x[0] == ADD
    requires |x| > Need(tail) ==> NoType(x[Need(tail)..])
    ensures Need(tail) > 0
    ensures |x| < Need(tail) ==> Scan(c, tail + x).records == []
    ensures |x| > Need(tail) ==> Scan(c, tail + x).records == Swallowed(c, tail, x[..Need(tail)])
  {
    NeedsSome(c, tail);
    if |x| < Need(tail) {
      if ReadUvarint(tail[1..]).Some? { TornBodyLacks(c, tail, x); } else { TornLengthLacks(c, tail, x); }
    } else if |x| > Need(tail) {
      TakeDrop(x, Need(tail));
      TornAddTakes(c, tail, x[..Need(tail)], x[Need(tail)..]);
    }
  }

  lemma NeedsSome(c: Codec, tail: Bytes)
    requires TornAdd(c, tail)
    ensures Need(tail) > 0
  {
  }

  /** Two records a torn add needing m bytes cannot tell apart: both too short, or the same so
      far and of no meaning from there. */
  predicate Alike(x: Bytes, y: Bytes, m: nat) {
    || (|x| < m && |y| < m)
    || (|x| > m && |y| > m && x[..m] == y[..m] && NoType(x[m..]) && NoType(y[m..]))
  }

  lemma TornAddReadsAlike(c: Codec, tail: Bytes, x: Bytes, y: Bytes)
    requires TornAdd(c, tail) && x != [] && y != [] && x[0] == y[0] == ADD && Alike(x, y, Need(tail))
    ensures Scan(c, tail + x).records == Scan(c, tail + y).records
  {
    TornAddReads(c, tail, x);
    TornAddReads(c, tail, y);
  }

  lemma LivesDiffer(size: Size, ix: Index, e: ResultEvent, f: ResultEvent, max: nat)
    requires Sound(size, ix, max) && max > 0 && e != f
    requires KeyOf(e) !in ix.entries && KeyOf(f) !in ix.entries
    ensures AddTo(size, ix, e, max) != AddTo(size, ix, f, max)
  {
    NewestSurvives(size, ix, e, max);
    NewestSurvives(size, ix, f, max);
    PutSound(size, ix, e);
    PutSound(size, ix, f);
    EvictKeepsNewest(size, Put(size, ix, e), max);
    EvictKeepsNewest(size, Put(size, ix, f), max);
    assert AddTo(size, ix, e, max).entries[KeyOf(e)] == e;
    assert AddTo(size, ix, f, max).entries[KeyOf(f)] == f;
    if KeyOf(e) != KeyOf(f) { assert KeyOf(e) !in AddTo(size, ix, f, max).entries; }
  }

  // ----- when a log keeps what it is given -----

  /** Whatever is done to a log opened on this file, the next opening gives back its state. */
  ghost predicate Durable(c: Codec, file: Bytes, max: nat)
    requires Faithful(c)
  {
    forall ops: seq<Op> :: Reopens(c, After(c, Open(c, file, max), ops, max), max)
  }

  ghost predicate Reopens(c: Codec, w: Wal, max: nat) { Rebuild(c, w.file, max) == w.ix }

  ghost predicate Fresh(c: Codec, ix: Index, ev: ResultEvent) {
    c.marshal(ev).Some? && KeyOf(ev) !in ix.entries
  }

  ghost predicate Confusable(c: Codec, ix: Index, e: ResultEvent, f: ResultEvent, m: nat) {
    Fresh(c, ix, e) && Fresh(c, ix, f) && e != f && Alike(Encode(c, Added(e)), Encode(c, Added(f)), m)
  }

  /** The message format is rich enough: there is a new event with a bland body, and wherever
      a record is cut there are two new events that differ behind the cut. */
  ghost predicate Rich(c: Codec, ix: Index) {
    && (exists ev :: Fresh(c, ix, ev) && Bland(c.marshal(ev).value))
    && (forall m: nat :: m > 0 ==> HasConfusable(c, ix, m))
  }

  ghost predicate HasConfusable(c: Codec, ix: Index, m: nat) { exists e, f :: Confusable(c, ix, e, f, m) }

  lemma AfterOneAdd(c: Codec, file: Bytes, ev: ResultEvent, max: nat)
    requires Faithful(c) && Durable(c, file, max) && c.marshal(ev).Some?
    ensures Rebuild(c, file + Encode(c, Added(ev)), max) == AddTo(c.size, Rebuild(c, file, max), ev, max)
  {
    var w := Open(c, file, max);
    var ops := [AddOp(ev)];
    DoKeepsGood(c, w, AddOp(ev), max);
    assert ops[1..] == [];
    assert After(c, w, ops, max) == DoAdd(c, w, ev, max);
    assert Reopens(c, After(c, w, ops, max), max);
  }

  lemma ForeignNotDurable(c: Codec, file: Bytes, ev: ResultEvent, max: nat)
    requires Faithful(c) && max > 0 && Scan(c, file).end.Foreign? && Fresh(c, Rebuild(c, file, max), ev)
    ensures !Durable(c, file, max)
  {
    var ix := Rebuild(c, file, max);
    RebuildGood(c, file, max);
    NewestSurvives(c.size, ix, ev, max);
    ForeignTailLosesAppends(c, file, Encode(c, Added(ev)), ix, max);
    if Durable(c, file, max) { AfterOneAdd(c, file, ev, max); }
  }

  lemma TornAckNotDurable(c: Codec, file: Bytes, ev: ResultEvent, max: nat)
    requires Faithful(c) && max > 0 && EndsTorn(c, file, ACK)
    requires Fresh(c, Rebuild(c, file, max), ev) && Bland(c.marshal(ev).value)
    ensures !Durable(c, file, max)
  {
    if Durable(c, file, max) {
      AfterOneAdd(c, file, ev, max);
      TornAckLosesNextAdd(c, file, ev, max);
    }
  }

  lemma TornAddNotDurable(c: Codec, file: Bytes, e: ResultEvent, f: ResultEvent, max: nat)
    requires Faithful(c) && max > 0 && EndsTorn(c, file, ADD)
    requires Confusable(c, Rebuild(c, file, max), e, f, Need(Tail(c, file)))
    ensures !Durable(c, file, max)
  {
    TailStops(c, file);
    TornAddReadsAlike(c, Tail(c, file), Encode(c, Added(e)), Encode(c, Added(f)));
    AppendedBehind(c, file, Encode(c, Added(e)), max);
    AppendedBehind(c, file, Encode(c, Added(f)), max);
    RebuildGood(c, file, max);
    LivesDiffer(c.size, Rebuild(c, file, max), e, f, max);
    if Durable(c, file, max) {
      AfterOneAdd(c, file, e, max);
      AfterOneAdd(c, file, f, max);
    }
  }

  /** A log keeps what it is given, whatever is done to it, if and only if the file it was
      opened on ends at a record boundary: behind any torn or foreign tail some add is lost. */
  lemma DurableIff(c: Codec, file: Bytes, max: nat)
    requires Faithful(c) && max > 0 && Rich(c, Rebuild(c, file, max))
    ensures Durable(c, file, max) <==> Scan(c, file).end.Clean?
  {
    TailStops(c, file);
    var ix := Rebuild(c, file, max);
    var ev :| Fresh(c, ix, ev) && Bland(c.marshal(ev).value);
    match Scan(c, file).end
    case Clean =>
      OpenIsExactIff(c, file, max);
      forall ops: seq<Op> ensures Reopens(c, After(c, Open(c, file, max), ops, max), max) {
        ReopenRebuildsLive(c, Open(c, file, max), ops, max);
      }
    case Foreign => ForeignNotDurable(c, file, ev, max);
    case Torn =>
      var tail := Tail(c, file);
      if tail[0] == ACK {
        TornAckNotDurable(c, file, ev, max);
      } else {
        NeedsSome(c, tail);
        assert HasConfusable(c, ix, Need(tail));
        var e, f :| Confusable(c, ix, e, f, Need(tail));
        TornAddNotDurable(c, file, e, f, max);
      }
  }

  // ----- a format that is rich enough -----

  /** A small format to show that the premises of DurableIff can be met together: events with
      nothing but a task id, written in unary with a final digit. */
  function Sample(id: int): ResultEvent { ResultEvent(id, 0, 0, "", "", 0) }

  function Unary(id: nat): (body: Bytes)
    ensures |body| == id / 2 + 1
  {
    seq(id / 2, _ => 8) + [5 + id % 2]
  }

  predicate IsUnary(b: Bytes) {
    0 < |b| <= TWO_63 / 2 && (b[|b| - 1] == 5 || b[|b| - 1] == 6) && forall i :: 0 <= i < |b| - 1 ==> b[i] == 8
  }

  function UnaryMarshal(ev: ResultEvent): Option<Bytes> {
    if 0 <= ev.taskId < TWO_63 && ev == Sample(ev.taskId) then Some(Unary(ev.taskId)) else None
  }

  function UnaryUnmarshal(b: Bytes): Option<ResultEvent> {
    if IsUnary(b) then Some(Sample(2 * (|b| - 1) + b[|b| - 1] - 5)) else None
  }

  const UNARY := Codec(UnaryMarshal, UnaryUnmarshal, ev => match UnaryMarshal(ev) case None => 0 case Some(b) => |b|)

  lemma UnaryReadBack(id: nat)
    requires id < TWO_63
    ensures UnaryUnmarshal(Unary(id)) == Some(Sample(id))
  {
    var b := Unary(id);
    assert b[|b| - 1] == 5 + id % 2;
    assert IsUnary(b);
  }

  lemma UnaryWritten(b: Bytes)
    requires IsUnary(b)
    ensures UnaryMarshal(UnaryUnmarshal(b).value).Some?
  {
  }

  lemma UnaryFaithful()
    ensures Faithful(UNARY)
  {
    forall e | UnaryMarshal(e).Some? ensures UnaryUnmarshal(UnaryMarshal(e).value) == Some(e) { UnaryReadBack(e.taskId); }
    forall b | UnaryUnmarshal(b).Some? ensures UnaryMarshal(UnaryUnmarshal(b).value).Some? { UnaryWritten(b); }
  }

  lemma UnaryRecord(id: nat)
    requires id < 200
    ensures Encode(UNARY, Added(Sample(id))) == [ADD, id / 2 + 1] + Unary(id)
  {
    assert UNARY.marshal(Sample(id)) == Some(Unary(id));
    assert PutUvarint(id / 2 + 1) == [id / 2 + 1];
    assert [ADD] + [id / 2 + 1] == [ADD, id / 2 + 1];
  }

  /** Records of 102 bytes that differ in the last one only. */
  lemma LongAlike(m: nat)
    requires 0 < m <= 5
    ensures Alike(Encode(UNARY, Added(Sample(198))), Encode(UNARY, Added(Sample(199))), m)
  {
    UnaryRecord(198);
    UnaryRecord(199);
    var x, y := [ADD, 100] + Unary(198), [ADD, 100] + Unary(199);
    assert forall i :: 1 < i < 101 ==> x[i] == 8 && y[i] == 8;
    assert x[..m] == y[..m];
    assert x[m..][0] == x[m] && y[m..][0] == y[m];
  }

  /** Records of 5 bytes. */
  lemma ShortAlike(m: nat)
    requires m > 5
    ensures Alike(Encode(UNARY, Added(Sample(4))), Encode(UNARY, Added(Sample(5))), m)
  {
    UnaryRecord(4);
    UnaryRecord(5);
  }

  lemma UnaryConfusable(m: nat)
    requires m > 0
    ensures HasConfusable(UNARY, NO_ENTRIES, m)
  {
    if m <= 5 {
      LongAlike(m);
      assert Confusable(UNARY, NO_ENTRIES, Sample(198), Sample(199), m);
    } else {
      ShortAlike(m);
      assert Confusable(UNARY, NO_ENTRIES, Sample(4), Sample(5), m);
    }
  }

  lemma RichFormatExists()
    ensures Faithful(UNARY) && Rich(UNARY, NO_ENTRIES)
  {
    UnaryFaithful();
    assert Unary(4) == [8, 8, 5];
    assert Fresh(UNARY, NO_ENTRIES, Sample(4)) && Bland(UNARY.marshal(Sample(4)).value);
    forall m: nat | m > 0 ensures HasConfusable(UNARY, NO_ENTRIES, m) { UnaryConfusable(m); }
  }
}
