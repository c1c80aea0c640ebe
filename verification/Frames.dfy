/** The two wire frames: the self-describing envelope of the Redis channel and the signed
    task payload. */
module Frames {
  import opened Wrappers
  import opened Varint
  import opened Seqs

  // ----- fields -----

  datatype Kind = StrKind | NumKind
  datatype Field = Str(s: Bytes) | Num(x: int) {
    function Kind(): Kind { if Str? then StrKind else NumKind }
    predicate Fits() { if Str? then |s| < TWO_64 else IsInt64(x) }
  }

  function AppendString(s: Bytes): (r: Bytes)
    ensures |r| > 0
  {
    PutUvarint(|s|) + s
  }

  /** The string and what follows it; None when it is cut short. */
  function ReadString(src: Bytes): Option<(Bytes, Bytes)> {
    match ReadUvarint(src)
    case None => None
    case Some(r) => if |r.1| < r.0 then None else Some((r.1[..r.0], r.1[r.0..]))
  }

  function Put(f: Field): (r: Bytes)
    ensures |r| > 0
  {
    match f
    case Str(s) => AppendString(s)
    case Num(x) => PutVarint(x)
  }

  function Get(k: Kind, src: Bytes): Option<(Field, Bytes)> {
    match k
    case StrKind => (match ReadString(src) case None => None case Some(r) => Some((Str(r.0), r.1)))
    case NumKind => (match ReadVarint(src) case None => None case Some(r) => Some((Num(r.0), r.1)))
  }

  function PutAll(fs: seq<Field>): Bytes {
    if fs == [] then [] else Put(fs[0]) + PutAll(fs[1..])
  }

  function GetAll(ks: seq<Kind>, src: Bytes): (r: Option<(seq<Field>, Bytes)>)
    ensures r.Some? ==> Kinds(r.value.0) == ks
  {
    if ks == [] then Some(([], src))
    else
      match Get(ks[0], src)
      case None => None
      case Some(f) =>
        match GetAll(ks[1..], f.1)
        case None => None
        case Some(rest) => Some(([f.0] + rest.0, rest.1))
  }

  function Kinds(fs: seq<Field>): (ks: seq<Kind>)
    ensures |ks| == |fs|
  {
    seq(|fs|, i requires 0 <= i < |fs| => fs[i].Kind())
  }

  lemma GetPut(f: Field, rest: Bytes)
    requires f.Fits()
    ensures Get(f.Kind(), Put(f) + rest) == Some((f, rest))
  {
    match f
    case Str(s) =>
      assert Put(f) + rest == PutUvarint(|s|) + (s + rest);
      ReadBackUvarint(|s|, s + rest);
      assert (s + rest)[..|s|] == s && (s + rest)[|s|..] == rest;
    case Num(x) => ReadBackVarint(x, rest);
  }

  lemma GetCut(f: Field, n: nat)
    requires f.Fits() && n < |Put(f)|
    ensures Get(f.Kind(), Put(f)[..n]) == None
  {
    match f
    case Str(s) =>
      var head := PutUvarint(|s|);
      if n < |head| {
        assert Put(f)[..n] == head[..n];
        CutUvarint(|s|, n);
      } else {
        assert Put(f)[..n] == head + s[..n - |head|];
        ReadBackUvarint(|s|, s[..n - |head|]);
      }
    case Num(x) => CutVarint(x, n);
  }

  lemma GetAllStep(f: Field, fs: seq<Field>, src: Bytes, rest: Bytes)
    requires Get(f.Kind(), src) == Some((f, rest))
    ensures GetAll(Kinds([f] + fs), src)
            == match GetAll(Kinds(fs), rest) case None => None case Some(r) => Some(([f] + r.0, r.1))
  {
    var ks := Kinds([f] + fs);
    assert ks[0] == f.Kind();
    assert ks[1..] == Kinds(fs);
  }

  /** Any list of fields is read back, and what follows it is left alone. */
  lemma {:induction false} GetAllPutAll(fs: seq<Field>, rest: Bytes)
    requires forall f :: f in fs ==> f.Fits()
    ensures GetAll(Kinds(fs), PutAll(fs) + rest) == Some((fs, rest))
  {
    if fs == [] {
      assert PutAll(fs) + rest == rest;
    } else {
      var tail := PutAll(fs[1..]) + rest;
      assert PutAll(fs) + rest == Put(fs[0]) + tail;
      GetPut(fs[0], tail);
      GetAllPutAll(fs[1..], rest);
      GetAllStep(fs[0], fs[1..], PutAll(fs) + rest, tail);
      assert [fs[0]] + fs[1..] == fs;
    }
  }

  /** A list of fields cut short anywhere is rejected. */
  lemma {:induction false} GetAllCut(fs: seq<Field>, n: nat)
    requires (forall f :: f in fs ==> f.Fits()) && n < |PutAll(fs)|
    ensures GetAll(Kinds(fs), PutAll(fs)[..n]) == None
  {
    var head := Put(fs[0]);
    assert Kinds(fs)[1..] == Kinds(fs[1..]);
    if n < |head| {
      assert PutAll(fs)[..n] == head[..n];
      GetCut(fs[0], n);
    } else {
      var rest := PutAll(fs[1..])[..n - |head|];
      assert PutAll(fs)[..n] == head + rest;
      GetPut(fs[0], rest);
      GetAllCut(fs[1..], n - |head|);
    }
  }

  // ----- envelope -----

  /** Headers are a nil or a real map; their JSON is taken as invertible. */
  datatype Headers = NilHeaders | Headers(fields: map<Bytes, Bytes>)

  datatype HeaderJson = HeaderJson(marshal: map<Bytes, Bytes> -> Bytes, unmarshal: Bytes -> Option<map<Bytes, Bytes>>)

  const NULL_JSON: Bytes := [0x6e, 0x75, 0x6c, 0x6c]

  ghost predicate FaithfulJson(j: HeaderJson) {
    forall m :: j.unmarshal(j.marshal(m)) == Some(m) && j.marshal(m) != [] && j.marshal(m) != NULL_JSON
  }

  datatype Envelope = Envelope(topic: Bytes, key: Bytes, correlationId: Bytes, target: Bytes,
                               attempt: int, headers: Headers, payload: Bytes)

  const ENVELOPE_HEAD: Bytes := [0x53, 0x46, 0x58, 0x45, 1]
  const LAYOUT := [StrKind, StrKind, StrKind, StrKind, NumKind, StrKind, StrKind]

  function HeadersJson(j: HeaderJson, h: Headers): Bytes {
    match h
    case NilHeaders => NULL_JSON
    case Headers(m) => j.marshal(m)
  }

  function FieldsOf(j: HeaderJson, env: Envelope): (fs: seq<Field>)
    ensures Kinds(fs) == LAYOUT
  {
    [Str(env.topic), Str(env.key), Str(env.correlationId), Str(env.target), Num(env.attempt),
     Str(HeadersJson(j, env.headers)), Str(env.payload)]
  }

  function EncodeEnvelope(j: HeaderJson, env: Envelope): Bytes {
    ENVELOPE_HEAD + PutAll(FieldsOf(j, env))
  }

  function EnvelopeOf(j: HeaderJson, fs: seq<Field>, topic: Bytes): Option<Envelope>
    requires Kinds(fs) == LAYOUT
  {
    assert forall i :: 0 <= i < 7 ==> fs[i].Kind() == LAYOUT[i];
    var raw := fs[5].s;
    var headers := if raw == [] || raw == NULL_JSON then Some(NilHeaders)
                   else match j.unmarshal(raw) case None => None case Some(m) => Some(Headers(m));
    if headers.None? then None
    else Some(Envelope(if fs[0].s == [] then topic else fs[0].s, fs[1].s, fs[2].s, fs[3].s,
                       fs[4].x, headers.value, fs[6].s))
  }

  /** None for a foreign, truncated or undecodable frame. An empty topic is replaced by the
      subscribed one; bytes behind the payload are ignored. */
  function DecodeEnvelope(j: HeaderJson, data: Bytes, topic: Bytes): Option<Envelope> {
    if |data| < 5 || data[..5] != ENVELOPE_HEAD then None
    else
      match GetAll(LAYOUT, data[5..])
      case None => None
      case Some(r) => EnvelopeOf(j, r.0, topic)
  }

  ghost predicate EnvelopeFits(j: HeaderJson, env: Envelope) {
    && |HeadersJson(j, env.headers)| < TWO_64
    && |env.topic| < TWO_64 && |env.key| < TWO_64 && |env.correlationId| < TWO_64 && |env.target| < TWO_64
    && |env.payload| < TWO_64 && IsInt64(env.attempt)
  }

  lemma EnvelopeOfFields(j: HeaderJson, env: Envelope, topic: Bytes)
    requires FaithfulJson(j)
    ensures EnvelopeOf(j, FieldsOf(j, env), topic) == Some(env.(topic := if env.topic == [] then topic else env.topic))
  {
    if env.headers.Headers? { assert j.unmarshal(j.marshal(env.headers.fields)) == Some(env.headers.fields); }
  }

  lemma FieldsFit(j: HeaderJson, env: Envelope)
    requires EnvelopeFits(j, env)
    ensures forall f :: f in FieldsOf(j, env) ==> f.Fits()
  {
  }

  lemma DecodeHeaded(j: HeaderJson, rest: Bytes, topic: Bytes)
    ensures DecodeEnvelope(j, ENVELOPE_HEAD + rest, topic)
            == match GetAll(LAYOUT, rest) case None => None case Some(r) => EnvelopeOf(j, r.0, topic)
  {
    DropOfConcat(ENVELOPE_HEAD, rest);
  }

  lemma DecodeFields(j: HeaderJson, fs: seq<Field>, topic: Bytes, behind: Bytes)
    requires Kinds(fs) == LAYOUT && forall f :: f in fs ==> f.Fits()
    ensures DecodeEnvelope(j, ENVELOPE_HEAD + PutAll(fs) + behind, topic) == EnvelopeOf(j, fs, topic)
  {
    Assoc(ENVELOPE_HEAD, PutAll(fs), behind);
    DecodeHeaded(j, PutAll(fs) + behind, topic);
    GetAllPutAll(fs, behind);
  }

  lemma DecodeCutFields(j: HeaderJson, fs: seq<Field>, topic: Bytes, n: nat)
    requires Kinds(fs) == LAYOUT && (forall f :: f in fs ==> f.Fits()) && n < |PutAll(fs)|
    ensures DecodeEnvelope(j, (ENVELOPE_HEAD + PutAll(fs))[..5 + n], topic) == None
  {
    TakeOfConcat(ENVELOPE_HEAD, PutAll(fs), n);
    DecodeHeaded(j, PutAll(fs)[..n], topic);
    GetAllCut(fs, n);
  }

  /** All seven fields survive the wire, for every 64-bit attempt, whatever follows. */
  lemma EnvelopeRoundTrip(j: HeaderJson, env: Envelope, topic: Bytes, behind: Bytes)
    requires FaithfulJson(j) && EnvelopeFits(j, env)
    ensures DecodeEnvelope(j, EncodeEnvelope(j, env) + behind, topic)
            == Some(env.(topic := if env.topic == [] then topic else env.topic))
  {
    FieldsFit(j, env);
    DecodeFields(j, FieldsOf(j, env), topic, behind);
    EnvelopeOfFields(j, env, topic);
  }

  /** Every strict prefix of a frame is rejected. */
  lemma EnvelopePrefixRejected(j: HeaderJson, env: Envelope, topic: Bytes, n: nat)
    requires EnvelopeFits(j, env) && n < |EncodeEnvelope(j, env)|
    ensures DecodeEnvelope(j, EncodeEnvelope(j, env)[..n], topic) == None
  {
    if n >= 5 {
      FieldsFit(j, env);
      DecodeCutFields(j, FieldsOf(j, env), topic, n - 5);
    }
  }

  lemma {:induction false} PutAllSnoc(fs: seq<Field>, f: Field)
    ensures PutAll(fs + [f]) == PutAll(fs) + Put(f)
  {
    if fs == [] {
      assert [f][1..] == [];
    } else {
      assert (fs + [f])[1..] == fs[1..] + [f];
      PutAllSnoc(fs[1..], f);
    }
  }

  /** Appends the next field to the buffer. */
  method Append(out: Bytes, f: Field, ghost head: Bytes, ghost fs: seq<Field>, ghost n: nat) returns (more: Bytes)
    requires n < |fs| && fs[n] == f && out == head + PutAll(fs[..n])
    ensures more == head + PutAll(fs[..n + 1])
  {
    more := out + Put(f);
    TakeSnoc(fs, n);
    PutAllSnoc(fs[..n], f);
    Assoc(head, PutAll(fs[..n]), Put(f));
  }

  method AppendSeven(head: Bytes, fs: seq<Field>) returns (out: Bytes)
    requires |fs| == 7
    ensures out == head + PutAll(fs)
  {
    out := head;
    assert head + PutAll(fs[..0]) == head;
    out := Append(out, fs[0], head, fs, 0);
    out := Append(out, fs[1], head, fs, 1);
    out := Append(out, fs[2], head, fs, 2);
    out := Append(out, fs[3], head, fs, 3);
    out := Append(out, fs[4], head, fs, 4);
    out := Append(out, fs[5], head, fs, 5);
    out := Append(out, fs[6], head, fs, 6);
    assert fs[..7] == fs;
  }

  /** The frame, appended to a local buffer field by field. */
  method WriteEnvelope(j: HeaderJson, env: Envelope) returns (out: Bytes)
    ensures out == EncodeEnvelope(j, env)
  {
    out := AppendSeven(ENVELOPE_HEAD, FieldsOf(j, env));
  }

  /** What reading the rest of the frame makes of the fields already read. */
  ghost function Resume(ks: seq<Kind>, done: seq<Field>, src: Bytes): Option<(seq<Field>, Bytes)>
    requires |done| <= |ks|
  {
    match GetAll(ks[|done|..], src)
    case None => None
    case Some(r) => Some((done + r.0, r.1))
  }

  /** Reads one field and advances over what it consumed. */
  method ReadNext(ks: seq<Kind>, fs: seq<Field>, src: Bytes) returns (ok: bool, more: seq<Field>, rest: Bytes)
    requires |fs| < |ks|
    ensures ok ==> |more| == |fs| + 1 && Resume(ks, fs, src) == Resume(ks, more, rest)
    ensures !ok ==> Resume(ks, fs, src) == None
  {
    var n := |fs|;
    assert ks[n..][0] == ks[n] && ks[n..][1..] == ks[n + 1..];
    match Get(ks[n], src)
    case None => return false, fs, src;
    case Some(f) =>
      ok, more, rest := true, fs + [f.0], f.1;
      if GetAll(ks[n + 1..], rest).Some? {
        ghost var r := GetAll(ks[n + 1..], rest).value.0;
        assert fs + ([f.0] + r) == more + r;
      }
  }

  method ReadTwo(ks: seq<Kind>, fs: seq<Field>, src: Bytes) returns (ok: bool, more: seq<Field>, rest: Bytes)
    requires |fs| + 1 < |ks|
    ensures ok ==> |more| == |fs| + 2 && Resume(ks, fs, src) == Resume(ks, more, rest)
    ensures !ok ==> Resume(ks, fs, src) == None
  {
    ok, more, rest := ReadNext(ks, fs, src);
    if ok { ok, more, rest := ReadNext(ks, more, rest); }
  }

  lemma ResumeEnd(ks: seq<Kind>, done: seq<Field>, src: Bytes)
    requires |done| == |ks|
    ensures Resume(ks, done, src) == Some((done, src))
  {
    assert ks[|done|..] == [] && done + [] == done;
  }

  method ReadFour(ks: seq<Kind>, fs: seq<Field>, src: Bytes) returns (ok: bool, more: seq<Field>, rest: Bytes)
    requires |fs| + 3 < |ks|
    ensures ok ==> |more| == |fs| + 4 && Resume(ks, fs, src) == Resume(ks, more, rest)
    ensures !ok ==> Resume(ks, fs, src) == None
  {
    ok, more, rest := ReadTwo(ks, fs, src);
    if ok { ok, more, rest := ReadTwo(ks, more, rest); }
  }

  method ReadSeven(ks: seq<Kind>, data: Bytes) returns (r: Option<seq<Field>>)
    requires |ks| == 7
    ensures r == match Resume(ks, [], data) case None => None case Some(x) => Some(x.0)
  {
    var ok, fs, rest := ReadFour(ks, [], data);
    if ok { ok, fs, rest := ReadTwo(ks, fs, rest); }
    if ok { ok, fs, rest := ReadNext(ks, fs, rest); }
    if ok { ResumeEnd(ks, fs, rest); }
    r := if ok then Some(fs) else None;
  }

  method ReadEnvelope(j: HeaderJson, data: Bytes, topic: Bytes) returns (r: Option<Envelope>)
    ensures r == DecodeEnvelope(j, data, topic)
  {
    if |data| < 5 || data[..5] != ENVELOPE_HEAD { return None; }
    assert LAYOUT[0..] == LAYOUT;
    var read := ReadSeven(LAYOUT, data[5..]);
    if read.None? { return None; }
    r := EnvelopeOf(j, read.value, topic);
  }

  // ----- signed task payload -----

  const CODEC_HEAD: Bytes := [0x53, 0x46, 0x58, 0x4d, 1]

  datatype FrameError = BadFrame | Unregistered | BadMessage

  /** Marshalling of one message type; the registry maps signatures to them. */
  datatype Proto<!V> = Proto(marshal: V -> Option<Bytes>, unmarshal: Bytes -> Option<V>)

  ghost predicate FaithfulProto<V(!new)>(p: Proto<V>) {
    forall v :: p.marshal(v).Some? ==> p.unmarshal(p.marshal(v).value) == Some(v)
  }

  function FrameOf(sig: Bytes, body: Bytes): Bytes { CODEC_HEAD + AppendString(sig) + body }

  function EncodeMessage<V>(reg: map<Bytes, Proto<V>>, sig: Bytes, v: V): Result<Bytes, FrameError> {
    if sig == [] then Err(BadMessage)
    else if sig !in reg then Err(Unregistered)
    else match reg[sig].marshal(v)
         case None => Err(BadMessage)
         case Some(body) => Ok(FrameOf(sig, body))
  }

  function Split(data: Bytes): Result<(Bytes, Bytes), FrameError> {
    if |data| < 5 || data[..5] != CODEC_HEAD then Err(BadFrame)
    else match ReadString(data[5..])
         case None => Err(BadFrame)
         case Some(r) => Ok(r)
  }

  function PeekSignature(data: Bytes): Result<Bytes, FrameError> {
    match Split(data)
    case Ok(r) => Ok(r.0)
    case Err(e) => Err(e)
  }

  function DecodeMessage<V>(reg: map<Bytes, Proto<V>>, data: Bytes): Result<(Bytes, V), FrameError> {
    match Split(data)
    case Err(e) => Err(e)
    case Ok(r) =>
      if r.0 !in reg then Err(Unregistered)
      else match reg[r.0].unmarshal(r.1)
           case None => Err(BadMessage)
           case Some(v) => Ok((r.0, v))
  }

  lemma SplitHeaded(rest: Bytes)
    ensures Split(CODEC_HEAD + rest) == match ReadString(rest) case None => Err(BadFrame) case Some(r) => Ok(r)
  {
    DropOfConcat(CODEC_HEAD, rest);
  }

  lemma SplitFrame(sig: Bytes, body: Bytes)
    requires |sig| < TWO_64
    ensures Split(FrameOf(sig, body)) == Ok((sig, body))
  {
    GetPut(Str(sig), body);
    SplitHeaded(AppendString(sig) + body);
    assert FrameOf(sig, body) == CODEC_HEAD + (AppendString(sig) + body);
  }

  lemma SplitCutHead(sig: Bytes, body: Bytes, n: nat)
    requires |sig| < TWO_64 && n < |AppendString(sig)|
    ensures Split(FrameOf(sig, body)[..5 + n]) == Err(BadFrame)
  {
    GetCut(Str(sig), n);
    SplitHeaded(AppendString(sig)[..n]);
    assert FrameOf(sig, body)[..5 + n] == CODEC_HEAD + AppendString(sig)[..n];
  }

  /** Splitting a frame cut to n bytes: rejected as long as the signature is not whole,
      afterwards accepted with as much of the body as is there, since the frame carries no
      body length. A whole frame gives back signature and body. */
  lemma SplitOfPrefix(sig: Bytes, body: Bytes, n: nat)
    requires |sig| < TWO_64 && n <= |FrameOf(sig, body)|
    ensures var head := 5 + |AppendString(sig)|;
            Split(FrameOf(sig, body)[..n]) == if n < head then Err(BadFrame) else Ok((sig, body[..n - head]))
    ensures Split(FrameOf(sig, body)) == Ok((sig, body))
  {
    var head := CODEC_HEAD + AppendString(sig);
    SplitFrame(sig, body);
    if n >= |head| {
      SplitFrame(sig, body[..n - |head|]);
      TakeOfConcat(head, body, n - |head|);
    } else if n >= 5 {
      SplitCutHead(sig, body, n - 5);
    }
  }

  /** What was encoded is decoded, signature and message. */
  lemma MessageRoundTrip<V(!new)>(reg: map<Bytes, Proto<V>>, sig: Bytes, v: V)
    requires |sig| < TWO_64 && (sig in reg ==> FaithfulProto(reg[sig]))
    ensures match EncodeMessage(reg, sig, v)
            case Ok(data) => DecodeMessage(reg, data) == Ok((sig, v)) && PeekSignature(data) == Ok(sig)
            case Err(_) => sig == [] || sig !in reg || reg[sig].marshal(v).None?
  {
    if sig != [] && sig in reg && reg[sig].marshal(v).Some? {
      var body := reg[sig].marshal(v).value;
      SplitOfPrefix(sig, body, 0);
    }
  }

  /** A frame of one kind is never taken for the other. */
  lemma FramesDoNotMix(j: HeaderJson, env: Envelope, sig: Bytes, body: Bytes, topic: Bytes)
    ensures Split(EncodeEnvelope(j, env)) == Err(BadFrame)
    ensures DecodeEnvelope(j, FrameOf(sig, body), topic) == None
  {
    assert EncodeEnvelope(j, env)[..5] == ENVELOPE_HEAD;
    assert FrameOf(sig, body)[..5] == CODEC_HEAD;
    assert ENVELOPE_HEAD[3] != CODEC_HEAD[3];
  }

  // ----- what decoding takes and makes of it -----

  /** An envelope is read only from a frame that begins with SFXE and version 1, a message only
      from one that begins with SFXM and version 1; and so what is written begins. */
  lemma Heads<V>(j: HeaderJson, env: Envelope, reg: map<Bytes, Proto<V>>, sig: Bytes, body: Bytes, data: Bytes, topic: Bytes)
    ensures DecodeEnvelope(j, data, topic).Some? ==>
              |data| >= 5 && data[0] == 0x53 && data[1] == 0x46 && data[2] == 0x58 && data[3] == 0x45 && data[4] == 1
    ensures DecodeMessage(reg, data) != Err(BadFrame) ==>
              |data| >= 5 && data[0] == 0x53 && data[1] == 0x46 && data[2] == 0x58 && data[3] == 0x4d && data[4] == 1
    ensures EncodeEnvelope(j, env)[..5] == [0x53, 0x46, 0x58, 0x45, 1]
    ensures FrameOf(sig, body)[..5] == [0x53, 0x46, 0x58, 0x4d, 1]
  {
    assert EncodeEnvelope(j, env)[..5] == ENVELOPE_HEAD && FrameOf(sig, body)[..5] == CODEC_HEAD;
    if |data| >= 5 {
      assert data[..5][0] == data[0] && data[..5][1] == data[1] && data[..5][2] == data[2]
             && data[..5][3] == data[3] && data[..5][4] == data[4];
    }
  }

  /** The seven fields by name: no headers from an empty text or null, otherwise what the JSON
      decodes to or a refusal; the subscribed topic for an empty one. */
  lemma SevenFields(j: HeaderJson, topicIn: Bytes, key: Bytes, correlation: Bytes, target: Bytes, attempt: int,
                    raw: Bytes, payload: Bytes, topic: Bytes)
    ensures var fs := [Str(topicIn), Str(key), Str(correlation), Str(target), Num(attempt), Str(raw), Str(payload)];
            && Kinds(fs) == LAYOUT
            && var env := EnvelopeOf(j, fs, topic);
               && (env == None <==> raw != [] && raw != [0x6e, 0x75, 0x6c, 0x6c] && j.unmarshal(raw) == None)
               && (env.Some? ==>
                     && env.value.topic == (if |topicIn| == 0 then topic else topicIn)
                     && env.value.key == key && env.value.correlationId == correlation && env.value.target == target
                     && env.value.attempt == attempt && env.value.payload == payload
                     && (env.value.headers == NilHeaders <==> raw == [] || raw == [0x6e, 0x75, 0x6c, 0x6c])
                     && (env.value.headers != NilHeaders ==> Some(env.value.headers.fields) == j.unmarshal(raw)))
  {
  }

  /** Any framed signature and body: the message if the signature is registered and the body
      decodes, and which refusal otherwise. */
  lemma DecodedFrame<V>(reg: map<Bytes, Proto<V>>, sig: Bytes, body: Bytes)
    requires |sig| < TWO_64
    ensures PeekSignature(FrameOf(sig, body)) == Ok(sig)
    ensures DecodeMessage(reg, FrameOf(sig, body))
            == if sig !in reg then Err(Unregistered)
               else if reg[sig].unmarshal(body).None? then Err(BadMessage)
               else Ok((sig, reg[sig].unmarshal(body).value))
  {
    SplitFrame(sig, body);
  }

  /** Encoding refuses a nameless or unmarshallable message and an unregistered signature. */
  lemma EncodedFrame<V>(reg: map<Bytes, Proto<V>>, sig: Bytes, v: V)
    ensures EncodeMessage(reg, sig, v)
            == if |sig| == 0 then Err(BadMessage)
               else if sig !in reg then Err(Unregistered)
               else if reg[sig].marshal(v).None? then Err(BadMessage)
               else Ok(FrameOf(sig, reg[sig].marshal(v).value))
  {
  }
}
