/** The disk log as a value, its operations, and what survives a restart. */
module WalFile {
  import opened Varint
  import opened Collect
  import opened WalIndex
  import opened WalLog

  const COMPACT_ACK_THRESHOLD := 1024

  /** File contents, live index, acks since the last compaction. */
  datatype Wal = Wal(file: Bytes, ix: Index, acks: nat)

  ghost function Open(c: Codec, file: Bytes, max: nat): (w: Wal)
    requires Faithful(c)
    ensures Good(c, w.ix, max)
  {
    RebuildGood(c, file, max);
    Wal(file, Rebuild(c, file, max), 0)
  }

  ghost function DoAdd(c: Codec, w: Wal, ev: ResultEvent, max: nat): Wal {
    if c.marshal(ev).None? then w
    else Wal(w.file + Encode(c, Added(ev)), AddTo(c.size, w.ix, ev, max), w.acks)
  }

  ghost function DoCompact(c: Codec, w: Wal): Wal
    requires Consistent(c.size, w.ix) && AllMarshal(c, w.ix)
  {
    Wal(EncodeAll(c, Kept(w.ix)), w.ix, 0)
  }

  ghost function AckOnly(c: Codec, w: Wal, taskId: int, attempt: int): Wal {
    Wal(w.file + EncodeAck(taskId, attempt), AckFrom(c.size, w.ix, Key(taskId, attempt)), w.acks + 1)
  }

  /** An ack of an unknown key writes nothing; the ack that reaches the threshold compacts. */
  ghost function DoAck(c: Codec, w: Wal, taskId: int, attempt: int, max: nat): Wal
    requires Good(c, w.ix, max)
  {
    if Key(taskId, attempt) !in w.ix.entries then w
    else
      var w1 := AckOnly(c, w, taskId, attempt);
      PlayGood(c, w.ix, Acked(taskId, attempt), max);
      if w1.acks >= COMPACT_ACK_THRESHOLD then DoCompact(c, w1) else w1
  }

  datatype Op = AddOp(ev: ResultEvent) | AckOp(taskId: int, attempt: int) | CompactOp

  ghost function Do(c: Codec, w: Wal, op: Op, max: nat): Wal
    requires Good(c, w.ix, max)
  {
    match op
    case AddOp(ev) => DoAdd(c, w, ev, max)
    case AckOp(t, a) => DoAck(c, w, t, a, max)
    case CompactOp => DoCompact(c, w)
  }

  /** The file is whole and opening it again would rebuild exactly the live index. */
  ghost predicate Exact(c: Codec, w: Wal, max: nat) {
    Good(c, w.ix, max) && Scan(c, w.file).end.Clean? && Rebuild(c, w.file, max) == w.ix
  }

  // ----- exactness -----

  lemma AppendExact(c: Codec, w: Wal, r: Record, max: nat)
    requires Faithful(c) && Exact(c, w, max) && Writable(c, r)
    ensures Rebuild(c, w.file + Encode(c, r), max) == Play(c, w.ix, r, max)
    ensures Scan(c, w.file + Encode(c, r)).end.Clean? && Good(c, Play(c, w.ix, r, max), max)
  {
    ScanEncoded(c, r);
    ScanAppend(c, w.file, Encode(c, r));
    FoldOne(c, NO_ENTRIES, Scan(c, w.file).records, r, max);
    PlayGood(c, w.ix, r, max);
  }

  /** A compacted file is exact, whatever the file was before. */
  lemma CompactIsExact(c: Codec, w: Wal, max: nat)
    requires Faithful(c) && Good(c, w.ix, max)
    ensures Exact(c, DoCompact(c, w), max)
  {
    CompactedReplays(c, w.ix, max);
  }

  lemma AckWritable(c: Codec, ix: Index, taskId: int, attempt: int, max: nat)
    requires Faithful(c) && Good(c, ix, max) && Key(taskId, attempt) in ix.entries
    ensures Writable(c, Acked(taskId, attempt))
  {
  }

  lemma DoKeepsExact(c: Codec, w: Wal, op: Op, max: nat)
    requires Faithful(c) && Exact(c, w, max)
    ensures Exact(c, Do(c, w, op, max), max)
  {
    match op
    case AddOp(ev) => if c.marshal(ev).Some? { AppendExact(c, w, Added(ev), max); }
    case AckOp(t, a) =>
      if Key(t, a) in w.ix.entries {
        AckWritable(c, w.ix, t, a, max);
        AppendExact(c, w, Acked(t, a), max);
        CompactIsExact(c, AckOnly(c, w, t, a), max);
      }
    case CompactOp => CompactIsExact(c, w, max);
  }

  lemma DoKeepsGood(c: Codec, w: Wal, op: Op, max: nat)
    requires Faithful(c) && Good(c, w.ix, max)
    ensures Good(c, Do(c, w, op, max).ix, max)
  {
    match op
    case AddOp(ev) => if c.marshal(ev).Some? { PlayGood(c, w.ix, Added(ev), max); }
    case AckOp(t, a) => PlayGood(c, w.ix, Acked(t, a), max);
    case CompactOp =>
  }

  /** The log after a sequence of operations. */
  ghost function After(c: Codec, w: Wal, ops: seq<Op>, max: nat): (r: Wal)
    requires Faithful(c) && Good(c, w.ix, max)
    ensures Good(c, r.ix, max)
    decreases |ops|
  {
    if ops == [] then w
    else
      DoKeepsGood(c, w, ops[0], max);
      After(c, Do(c, w, ops[0], max), ops[1..], max)
  }

  /** Adds, overwrites, evictions, acks and compactions in any order: opening the file with
      the same maximum rebuilds the same entries, the same order and the same byte total. */
  lemma {:induction false} ReopenRebuildsLive(c: Codec, w: Wal, ops: seq<Op>, max: nat)
    requires Faithful(c) && Exact(c, w, max)
    ensures Open(c, After(c, w, ops, max).file, max).ix == After(c, w, ops, max).ix
    ensures Exact(c, After(c, w, ops, max), max)
    decreases |ops|
  {
    if ops != [] {
      DoKeepsGood(c, w, ops[0], max);
      DoKeepsExact(c, w, ops[0], max);
      ReopenRebuildsLive(c, Do(c, w, ops[0], max), ops[1..], max);
    }
  }

  /** A new log is exact, and so is one opened on a file that scans cleanly. */
  lemma OpenIsExactIff(c: Codec, file: Bytes, max: nat)
    requires Faithful(c)
    ensures Exact(c, Open(c, file, max), max) <==> Scan(c, file).end.Clean?
  {
  }

  // ----- crashes -----

  ghost predicate WrittenAs(c: Codec, file: Bytes, rs: seq<Record>) {
    AllWritable(c, rs) && file == EncodeAll(c, rs)
  }

  lemma AppendWrites(c: Codec, file: Bytes, rs: seq<Record>, r: Record)
    requires WrittenAs(c, file, rs) && Writable(c, r)
    ensures WrittenAs(c, file + Encode(c, r), rs + [r])
  {
    EncodeSnoc(c, rs, r);
  }

  lemma DoWrites(c: Codec, w: Wal, rs: seq<Record>, op: Op, max: nat) returns (rs': seq<Record>)
    requires Faithful(c) && Good(c, w.ix, max) && WrittenAs(c, w.file, rs)
    ensures WrittenAs(c, Do(c, w, op, max).file, rs')
  {
    rs' := rs;
    match op
    case AddOp(ev) =>
      if c.marshal(ev).Some? {
        AppendWrites(c, w.file, rs, Added(ev));
        rs' := rs + [Added(ev)];
      }
    case AckOp(t, a) =>
      if Key(t, a) in w.ix.entries {
        AckWritable(c, w.ix, t, a, max);
        AppendWrites(c, w.file, rs, Acked(t, a));
        PlayGood(c, w.ix, Acked(t, a), max);
        var w1 := AckOnly(c, w, t, a);
        KeptWritable(c, w1.ix, max);
        rs' := if w1.acks >= COMPACT_ACK_THRESHOLD then Kept(w1.ix) else rs + [Acked(t, a)];
      }
    case CompactOp =>
      KeptWritable(c, w.ix, max);
      rs' := Kept(w.ix);
  }

  /** What operations leave in the file is a sequence of written records. */
  lemma {:induction false} FileIsWritten(c: Codec, w: Wal, rs: seq<Record>, ops: seq<Op>, max: nat) returns (rs': seq<Record>)
    requires Faithful(c) && Good(c, w.ix, max) && WrittenAs(c, w.file, rs)
    ensures WrittenAs(c, After(c, w, ops, max).file, rs')
    decreases |ops|
  {
    if ops == [] {
      rs' := rs;
    } else {
      DoKeepsGood(c, w, ops[0], max);
      var rs1 := DoWrites(c, w, rs, ops[0], max);
      rs' := FileIsWritten(c, Do(c, w, ops[0], max), rs1, ops[1..], max);
    }
  }

  /** Every prefix of a file that any operations left, starting from an empty one, replays to
      the state after exactly the records whole in it; the whole file to the live state. */
  lemma PrefixOfLogReplays(c: Codec, ops: seq<Op>, n: nat, max: nat) returns (rs: seq<Record>, k: nat)
    requires Faithful(c) && n <= |After(c, Open(c, [], max), ops, max).file|
    ensures var log := After(c, Open(c, [], max), ops, max);
            && WrittenAs(c, log.file, rs) && k <= |rs|
            && |EncodeAll(c, rs[..k])| <= n && (k < |rs| ==> n < |EncodeAll(c, rs[..k + 1])|)
            && Rebuild(c, log.file[..n], max) == Fold(c, NO_ENTRIES, rs[..k], max)
            && (n == |log.file| ==> Rebuild(c, log.file[..n], max) == log.ix)
  {
    var w := Open(c, [], max);
    rs := FileIsWritten(c, w, [], ops, max);
    k := PrefixReplaysWholeRecords(c, rs, n, max);
    ReopenRebuildsLive(c, w, ops, max);
    var log := After(c, w, ops, max);
    if n == |log.file| { assert log.file[..n] == log.file; }
  }

  /** An append cut off anywhere leaves a file that replays to the state before it, or to the
      state after it if the whole record made it. */
  lemma CutAppend(c: Codec, w: Wal, r: Record, n: nat, max: nat)
    requires Faithful(c) && Exact(c, w, max) && Writable(c, r) && n <= |Encode(c, r)|
    ensures Rebuild(c, w.file + Encode(c, r)[..n], max) == if n == |Encode(c, r)| then Play(c, w.ix, r, max) else w.ix
  {
    if n == |Encode(c, r)| {
      assert Encode(c, r)[..n] == Encode(c, r);
      AppendExact(c, w, r, max);
    } else {
      HoldsNone(c, r, n);
      ScanAppend(c, w.file, Encode(c, r)[..n]);
      assert Scan(c, w.file).records + [] == Scan(c, w.file).records;
    }
  }

  // ----- compactions that fail -----

  /** The descriptor the log writes to: closed for good, open, or left dangling by a
      compaction that failed after closing it. */
  datatype Handle = Nil | Opened | Dangling

  /** Where a compaction meets an I/O error, if it does. */
  datatype CompactFault = NoFault | OpenTmp | WriteTmpAfter(n: nat) | SyncOrCloseTmp | CloseOld | RenameTmp | ReopenNew {
    predicate BeforeClose() { OpenTmp? || WriteTmpAfter? || SyncOrCloseTmp? }
  }

  datatype Log = Log(w: Wal, handle: Handle)

  ghost function CompactLog(c: Codec, g: Log, fault: CompactFault): Log
    requires Consistent(c.size, g.w.ix) && AllMarshal(c, g.w.ix)
  {
    if g.handle.Nil? || fault.BeforeClose() then g
    else if !g.handle.Opened? || fault.CloseOld? || fault.RenameTmp? then g.(handle := Dangling)
    else if fault.ReopenNew? then Log(g.w.(file := EncodeAll(c, Kept(g.w.ix))), Dangling)
    else g.(w := DoCompact(c, g.w))
  }

  ghost function AddLog(c: Codec, g: Log, ev: ResultEvent, max: nat): Log {
    if g.handle.Opened? then g.(w := DoAdd(c, g.w, ev, max)) else g
  }

  ghost function AckLog(c: Codec, g: Log, taskId: int, attempt: int, fault: CompactFault, max: nat): Log
    requires Good(c, g.w.ix, max)
  {
    if !g.handle.Opened? || Key(taskId, attempt) !in g.w.ix.entries then g
    else
      var g1 := g.(w := AckOnly(c, g.w, taskId, attempt));
      PlayGood(c, g.w.ix, Acked(taskId, attempt), max);
      if g1.w.acks >= COMPACT_ACK_THRESHOLD then CompactLog(c, g1, fault) else g1
  }

  datatype LogOp = AddLogOp(ev: ResultEvent) | AckLogOp(taskId: int, attempt: int, fault: CompactFault) | CompactLogOp(fault: CompactFault)

  ghost function DoLog(c: Codec, g: Log, op: LogOp, max: nat): Log
    requires Good(c, g.w.ix, max)
  {
    match op
    case AddLogOp(ev) => AddLog(c, g, ev, max)
    case AckLogOp(t, a, fault) => AckLog(c, g, t, a, fault, max)
    case CompactLogOp(fault) => CompactLog(c, g, fault)
  }

  ghost function DoAllLog(c: Codec, g: Log, ops: seq<LogOp>, max: nat): (r: Log)
    requires Faithful(c) && Good(c, g.w.ix, max)
    ensures Good(c, r.w.ix, max)
    decreases |ops|
  {
    if ops == [] then g
    else
      DoLogKeepsGood(c, g, ops[0], max);
      DoAllLog(c, DoLog(c, g, ops[0], max), ops[1..], max)
  }

  lemma DoLogKeepsGood(c: Codec, g: Log, op: LogOp, max: nat)
    requires Faithful(c) && Good(c, g.w.ix, max)
    ensures Good(c, DoLog(c, g, op, max).w.ix, max)
  {
    match op
    case AddLogOp(ev) => DoKeepsGood(c, g.w, AddOp(ev), max);
    case AckLogOp(t, a, _) => PlayGood(c, g.w.ix, Acked(t, a), max);
    case CompactLogOp(_) =>
  }

  /** Once the descriptor dangles nothing is ever recorded or acknowledged again. */
  lemma {:induction false} DanglingIsDeaf(c: Codec, g: Log, ops: seq<LogOp>, max: nat)
    requires Faithful(c) && Good(c, g.w.ix, max) && g.handle.Dangling?
    ensures DoAllLog(c, g, ops, max) == g
    decreases |ops|
  {
    if ops != [] {
      DoLogKeepsGood(c, g, ops[0], max);
      assert DoLog(c, g, ops[0], max) == g;
      DanglingIsDeaf(c, g, ops[1..], max);
    }
  }

  /** Behind a compaction of an open log new results still reach the index exactly when it
      succeeded or failed before closing the old file. */
  lemma CompactionKeepsHearingIff(c: Codec, g: Log, fault: CompactFault, ev: ResultEvent, max: nat)
    requires Faithful(c) && Good(c, g.w.ix, max) && g.handle.Opened? && max > 0
    requires c.marshal(ev).Some? && KeyOf(ev) !in g.w.ix.entries
    ensures KeyOf(ev) in AddLog(c, CompactLog(c, g, fault), ev, max).w.ix.entries <==> fault.NoFault? || fault.BeforeClose()
  {
    NewestSurvives(c.size, g.w.ix, ev, max);
  }

  /** The event just added is pending as long as the maximum admits one. */
  lemma NewestSurvives(size: Size, ix: Index, ev: ResultEvent, max: nat)
    requires Sound(size, ix, max) && max > 0 && KeyOf(ev) !in ix.entries
    ensures KeyOf(ev) in AddTo(size, ix, ev, max).entries
  {
    var p := Put(size, ix, ev);
    PutSound(size, ix, ev);
    EvictKeepsNewest(size, p, max);
    EvictSound(size, p, max);
    var after := Evict(size, p, max);
    assert after.order[|after.order| - 1] == KeyOf(ev);
  }

  /** The ack of a pending key is appended and counted; the 1024th since the last compaction
      leaves a file of just the pending records instead. */
  lemma AckCompactsAt1024(c: Codec, w: Wal, taskId: int, attempt: int, max: nat)
    requires Faithful(c) && Good(c, w.ix, max) && Key(taskId, attempt) in w.ix.entries
    ensures var after := DoAck(c, w, taskId, attempt, max);
            && after.ix == AckFrom(c.size, w.ix, Key(taskId, attempt))
            && Good(c, after.ix, max) && Key(taskId, attempt) !in after.ix.entries
            && if w.acks < 1023 then after.file == w.file + EncodeAck(taskId, attempt) && after.acks == w.acks + 1
               else after.file == EncodeAll(c, Kept(after.ix)) && after.acks == 0
  {
    PlayGood(c, w.ix, Acked(taskId, attempt), max);
  }
}
