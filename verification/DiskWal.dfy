/** The disk log: an append-only file beside the in-memory index, replayed on opening and
    rewritten on compaction. A crash may stop any of the file operations. */
module DiskWal {
  import opened Wrappers
  import opened Varint
  import opened Collect
  import opened WalIndex
  import opened WalLog
  import opened WalFile
  import opened MemWal
  import opened Seqs

  /** The file at the log's path and the temporary file of a compaction. `trail` records
      what the path held after each operation: what a crash at that moment leaves. */
  class Disk {
    var data: Bytes
    var tmp: Bytes
    ghost var trail: seq<Bytes>

    constructor (data: Bytes)
      ensures this.data == data && trail == []
    {
      this.data, tmp, trail := data, [], [];
    }

    /** A failing write may have written a part: its first `fault` bytes. */
    method Append(buf: Bytes, fault: Option<nat>) returns (ok: bool)
      modifies this
      ensures ok <==> fault.None?
      ensures data == old(data) + Part(buf, fault) && trail == old(trail) + [data]
    {
      ok := fault.None?;
      data := data + Part(buf, fault);
      trail := trail + [data];
    }

    method WriteTmp(buf: Bytes, fault: Option<nat>) returns (ok: bool)
      modifies this
      ensures ok <==> fault.None?
      ensures tmp == Part(buf, fault) && data == old(data) && trail == old(trail) + [data]
    {
      ok := fault.None?;
      tmp := Part(buf, fault);
      trail := trail + [data];
    }

    /** Renaming replaces the file at the path in one step. */
    method Rename()
      modifies this
      ensures data == old(tmp) && trail == old(trail) + [data]
    {
      data := tmp;
      trail := trail + [data];
    }
  }

  function Part(buf: Bytes, fault: Option<nat>): Bytes {
    match fault
    case None => buf
    case Some(n) => buf[..if n < |buf| then n else |buf|]
  }

  class DiskWAL {
    const disk: Disk
    const codec: Codec
    const mem: MemWAL
    var handle: Handle
    var acksSinceCompact: nat

    ghost function State(): Wal
      reads this, disk, mem
    {
      Wal(disk.data, mem.Ix(), acksSinceCompact)
    }

    ghost function Whole(): Log
      reads this, disk, mem
    {
      Log(State(), handle)
    }

    ghost predicate Valid()
      reads this, disk, mem
    {
      Faithful(codec) && mem.size == codec.size && mem.Valid() && AllMarshal(codec, mem.Ix())
    }

    /** The file is whole and a restart would give back the live index. */
    ghost predicate IsExact()
      reads this, disk, mem
    {
      Exact(codec, State(), mem.max)
    }

    /** Opens the log: replays the whole file, then appends behind whatever it ends with. */
    constructor (disk: Disk, codec: Codec, max: int, maxByte: int)
      requires Faithful(codec)
      ensures Valid() && this.disk == disk && this.codec == codec && fresh(mem) && handle == Opened
      ensures mem.max == if max <= 0 then DEFAULT_WAL_MAX else max
      ensures State() == Open(codec, disk.data, mem.max)
      ensures IsExact() <==> Scan(codec, disk.data).end.Clean?
    {
      this.disk, this.codec := disk, codec;
      mem := new MemWAL(codec.size, max, maxByte);
      handle := Opened;
      acksSinceCompact := 0;
      new;
      Replay();
      RebuildGood(codec, disk.data, mem.max);
    }

    /** Reads record after record; a torn or unknown tail ends the replay silently. */
    method Replay()
      requires Faithful(codec) && mem.size == codec.size && mem.Valid() && mem.Ix() == NO_ENTRIES
      modifies mem`entries, mem`order, mem`bytes
      ensures mem.Valid() && mem.Ix() == Rebuild(codec, disk.data, mem.max)
    {
      var rest := disk.data;
      while true
        invariant mem.Valid()
        invariant Fold(codec, mem.Ix(), Scan(codec, rest).records, mem.max) == Rebuild(codec, disk.data, mem.max)
        decreases |rest|
      {
        match Parse(codec, rest)
        case Stop(_) => return;
        case Next(r, more) =>
          FoldParsed(codec, mem.Ix(), rest, mem.max);
          if r.Some? {
            match r.value
            case Added(ev) => mem.Add(ev);
            case Acked(t, a) => mem.Ack(t, a);
          }
          rest := more;
      }
    }

    /** Marshal, append, then index. A refused event, a descriptor that is not open or a failed
        write leaves the index alone; a failed write may leave a part of the record in the
        file, and a restart then finds the old index, or the new one if the part is whole. */
    method Add(ev: ResultEvent, fault: Option<nat>)
      requires Valid()
      modifies disk, mem`entries, mem`order, mem`bytes
      ensures Valid() && handle == old(handle)
      ensures fault.None? ==> Whole() == AddLog(codec, old(Whole()), ev, mem.max)
      ensures fault.None? && handle.Opened? && codec.marshal(ev).Some? ==>
                && mem.Ix() == AddTo(codec.size, old(mem.Ix()), ev, mem.max)
                && disk.data == old(disk.data) + Encode(codec, Added(ev))
      ensures fault.Some? ==>
                State() == (if codec.marshal(ev).Some? && handle.Opened?
                            then old(State()).(file := old(disk.data) + Part(Encode(codec, Added(ev)), fault))
                            else old(State()))
      ensures old(IsExact()) && fault.None? ==> IsExact()
      ensures old(IsExact()) && fault.Some? ==>
                Rebuild(codec, disk.data, mem.max)
                == AfterPart(Added(ev), fault.value, codec.marshal(ev).Some? && handle.Opened?, old(mem.Ix()))
    {
      var body := codec.marshal(ev);
      ghost var before := State();
      if body.None? || !handle.Opened? { return; }
      var ok := disk.Append(EncodeAdd(body.value), fault);
      if Exact(codec, before, mem.max) { CutAdded(before, Added(ev), fault); }
      if !ok { return; }
      PlayGood(codec, mem.Ix(), Added(ev), mem.max);
      mem.Add(ev);
      if Exact(codec, before, mem.max) { DoKeepsExact(codec, before, AddOp(ev), mem.max); }
    }

    /** What a restart finds after the first n bytes of a record were appended, if it got so
        far: the record counts when it is whole. */
    ghost function AfterPart(r: Record, n: nat, appended: bool, before: Index): Index {
      if appended && n >= |Encode(codec, r)| then Play(codec, before, r, mem.max) else before
    }

    lemma CutAdded(before: Wal, r: Record, fault: Option<nat>)
      requires Faithful(codec) && Exact(codec, before, mem.max) && Writable(codec, r)
      ensures var file := before.file + Part(Encode(codec, r), fault);
              Rebuild(codec, file, mem.max)
              == if fault.None? || fault.value >= |Encode(codec, r)| then Play(codec, before.ix, r, mem.max) else before.ix
    {
      var n := if fault.None? || fault.value >= |Encode(codec, r)| then |Encode(codec, r)| else fault.value;
      assert Part(Encode(codec, r), fault) == Encode(codec, r)[..n];
      CutAppend(codec, before, r, n, mem.max);
    }

    /** Append, then index; reports whether the ack went through. */
    method AckRecord(taskId: int, attempt: int, fault: Option<nat>) returns (acked: bool)
      requires Valid()
      modifies this`acksSinceCompact, disk, mem`entries, mem`order, mem`bytes
      ensures Valid() && handle == old(handle)
      ensures acked <==> Key(taskId, attempt) in old(mem.Ix()).entries && handle.Opened? && fault.None?
      ensures State() == if acked then AckOnly(codec, old(State()), taskId, attempt)
                         else if Key(taskId, attempt) in old(mem.Ix()).entries && handle.Opened?
                         then old(State()).(file := old(disk.data) + Part(EncodeAck(taskId, attempt), fault))
                         else old(State())
      ensures old(IsExact()) && fault.None? ==> IsExact()
      ensures old(IsExact()) && fault.Some? ==>
                Rebuild(codec, disk.data, mem.max)
                == AfterPart(Acked(taskId, attempt), fault.value,
                             Key(taskId, attempt) in old(mem.Ix()).entries && handle.Opened?, old(mem.Ix()))
    {
      if Key(taskId, attempt) !in mem.entries || !handle.Opened? { return false; }
      ghost var before := State();
      AckWritable(codec, mem.Ix(), taskId, attempt, mem.max);
      acked := disk.Append(EncodeAck(taskId, attempt), fault);
      if Exact(codec, before, mem.max) { CutAdded(before, Acked(taskId, attempt), fault); }
      if !acked { return; }
      PlayGood(codec, mem.Ix(), Acked(taskId, attempt), mem.max);
      mem.Ack(taskId, attempt);
      acksSinceCompact := acksSinceCompact + 1;
      if Exact(codec, before, mem.max) { AppendExact(codec, before, Acked(taskId, attempt), mem.max); }
    }

    /** The ack that reaches the threshold also compacts; an error of that compaction is
        ignored, whatever it leaves. */
    method Ack(taskId: int, attempt: int, fault: Option<nat>, compactFault: CompactFault)
      requires Valid()
      modifies this`handle, this`acksSinceCompact, disk, mem`entries, mem`order, mem`bytes
      ensures Valid()
      ensures fault.None? ==> Whole() == AckLog(codec, old(Whole()), taskId, attempt, compactFault, mem.max)
      ensures fault.None? && old(handle).Opened? ==> mem.Ix() == AckFrom(codec.size, old(mem.Ix()), Key(taskId, attempt))
      ensures fault.Some? ==>
                && handle == old(handle)
                && State() == (if Key(taskId, attempt) in old(mem.Ix()).entries && handle.Opened?
                               then old(State()).(file := old(disk.data) + Part(EncodeAck(taskId, attempt), fault))
                               else old(State()))
      ensures old(IsExact()) && fault.None? ==> IsExact()
      ensures old(IsExact()) && fault.Some? ==>
                Rebuild(codec, disk.data, mem.max)
                == AfterPart(Acked(taskId, attempt), fault.value,
                             Key(taskId, attempt) in old(mem.Ix()).entries && handle.Opened?, old(mem.Ix()))
    {
      var acked := AckRecord(taskId, attempt, fault);
      if acked && acksSinceCompact >= COMPACT_ACK_THRESHOLD {
        var _ := CompactLocked(compactFault);
      }
    }

    /** The bytes of the compacted file. */
    method KeptBytes() returns (out: Bytes)
      requires Valid()
      ensures out == EncodeAll(codec, Kept(mem.Ix()))
    {
      ghost var kept := Kept(mem.Ix());
      out := [];
      for i := 0 to |mem.order|
        invariant out == EncodeAll(codec, kept[..i])
      {
        var k := mem.order[i];
        TakeSnoc(kept, i);
        EncodeSnoc(codec, kept[..i], kept[i]);
        if k in mem.entries {
          var body := codec.marshal(mem.entries[k]);
          if body.Some? { out := out + EncodeAdd(body.value); }
        }
      }
      assert kept[..|mem.order|] == kept;
    }

    /** Writes the compacted file beside the log; the log itself is not touched. */
    method WriteCompacted(fault: CompactFault) returns (ok: bool)
      requires Valid()
      modifies disk
      ensures disk.data == old(disk.data)
      ensures disk.trail == old(disk.trail) || disk.trail == old(disk.trail) + [disk.data]
      ensures ok <==> !fault.BeforeClose()
      ensures ok ==> disk.tmp == EncodeAll(codec, Kept(mem.Ix()))
    {
      var out := KeptBytes();
      if fault.OpenTmp? { return false; }
      var written := disk.WriteTmp(out, if fault.WriteTmpAfter? then Some(fault.n) else None);
      ok := written && !fault.SyncOrCloseTmp?;
    }

    /** Closes the old file, renames the new one over it and reopens it. */
    method SwapFiles(fault: CompactFault) returns (ok: bool)
      modifies this`handle, this`acksSinceCompact, disk
      ensures ok <==> old(handle).Opened? && !fault.CloseOld? && !fault.RenameTmp? && !fault.ReopenNew?
      ensures handle == if ok then Opened else Dangling
      ensures acksSinceCompact == if ok then 0 else old(acksSinceCompact)
      ensures if old(handle).Opened? && !fault.CloseOld? && !fault.RenameTmp?
              then disk.data == old(disk.tmp) && disk.trail == old(disk.trail) + [disk.data]
              else disk.data == old(disk.data) && disk.trail == old(disk.trail)
    {
      var closed := handle.Opened? && !fault.CloseOld?;
      handle := Dangling;
      if !closed || fault.RenameTmp? { return false; }
      disk.Rename();
      if fault.ReopenNew? { return false; }
      handle := Opened;
      acksSinceCompact := 0;
      return true;
    }

    /** Rewrites the file to hold just the pending results, by way of a temporary file. The
        index never changes. Success leaves an exact file, whatever it was before; and at
        every moment, failed or not, the path holds the old file or the finished new one,
        so if a restart would have been right before, it is right throughout. */
    method CompactLocked(fault: CompactFault) returns (ok: bool)
      requires Valid()
      modifies this`handle, this`acksSinceCompact, disk
      ensures Valid() && mem.Ix() == old(mem.Ix())
      ensures ok <==> old(handle).Nil? || (old(handle).Opened? && fault.NoFault?)
      ensures Whole() == CompactLog(codec, old(Whole()), fault)
      ensures old(handle).Opened? ==> (handle.Opened? <==> fault.NoFault? || fault.BeforeClose())
      ensures old(handle).Opened? && fault.NoFault? ==> IsExact()
      ensures |disk.trail| >= |old(disk.trail)|
      ensures forall i :: |old(disk.trail)| <= i < |disk.trail| ==>
                disk.trail[i] == old(disk.data)
                || (Rebuild(codec, disk.trail[i], mem.max) == mem.Ix() && Scan(codec, disk.trail[i]).end.Clean?)
      ensures old(IsExact()) ==> IsExact()
    {
      if handle.Nil? { return true; }
      CompactIsExact(codec, State(), mem.max);
      ok := WriteCompacted(fault);
      if ok { ok := SwapFiles(fault); }
    }

    method Close()
      requires Valid()
      modifies this`handle
      ensures Valid() && handle.Nil? && State() == old(State())
    {
      handle := Nil;
    }
  }
}
