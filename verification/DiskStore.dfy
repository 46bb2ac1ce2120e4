/** diskStore: the spill directory as files of bytes, updated in place. Each method is proved to do
    to the files what the corresponding function of module SpillDisk does to their records. */
module DiskStores {
  import opened Bytes
  import opened WalCodec
  import opened Wal
  import opened WalReader
  import opened SpillDisk

  type File = Option<seq<byte>>

  function FileOf(recs: Option<seq<Record>>): File {
    if recs.None? then None else Some(SegmentBytes(recs.value))
  }

  lemma SegmentSnoc(recs: seq<Record>, r: Record)
    ensures SegmentBytes(recs + [r]) == SegmentBytes(recs) + RecordBytes(r)
    ensures SegmentSize(recs + [r]) == SegmentSize(recs) + RecordSize(r)
  {
    assert (recs + [r])[..|recs|] == recs;
  }

  lemma EmptySegment()
    ensures SegmentBytes([]) == MAGIC + [1] && SegmentSize([]) == HEADER_SIZE
  {
  }

  /** The directory holds, file by file, the bytes of the given records. */
  ghost predicate Holds(files: seq<File>, segs: Segments) {
    |files| == |segs| && forall n | 0 <= n < |segs| :: files[n] == FileOf(segs[n])
  }

  ghost predicate Keyed(pending: map<Id, DiskRef>) {
    forall id | id in pending :: pending[id].id == id
  }

  lemma {:induction false} ReplayKeys(num: nat, data: seq<byte>, off: nat, st: Recovery)
    requires Keyed(st.pending)
    ensures Keyed(ReplayFrom(num, data, off, st).pending)
    decreases if off <= |data| then |data| - off else 0
  {
    hide FromBigEndian, DecodeAck, ReadHeader;
    if off + 5 <= |data| {
      var bodyLen := FromBigEndian(data[off + 1..off + 5]);
      var next := off + 5 + bodyLen;
      if bodyLen <= MAX_BODY {
        if data[off] == TYPE_ITEM {
          var h := ReadHeader(data[off + 5..], bodyLen);
          if h.Some? {
            ReplayKeys(num, data, next, SeeItem(num, off, h.value, st));
          }
        } else if next <= |data| {
          if data[off] == TYPE_ACK && DecodeAck(data[off + 5..next]).Some? {
            ReplayKeys(num, data, next, SeeAck(DecodeAck(data[off + 5..next]).value, st));
          } else {
            ReplayKeys(num, data, next, st);
          }
        }
      }
    }
  }

  lemma {:induction false} RecoverKeys(segs: Segments)
    ensures Keyed(Recover(segs).pending)
  {
    hide ReplayFrom, SegmentBytes;
    if segs != [] {
      var n := |segs| - 1;
      RecoverKeys(segs[..n]);
      if segs[n].Some? {
        ReplayKeys(n, SegmentBytes(segs[n].value), HEADER_SIZE, Recover(segs[..n]));
      }
    }
  }

  /** Recovered references point into files that are there. */
  ghost predicate InFiles(pending: map<Id, DiskRef>, segs: Segments) {
    forall id | id in pending :: pending[id].segment < |segs| && segs[pending[id].segment].Some?
  }

  lemma {:induction false} ReplayFiles(num: nat, data: seq<byte>, off: nat, st: Recovery, segs: Segments)
    requires InFiles(st.pending, segs) && num < |segs| && segs[num].Some?
    ensures InFiles(ReplayFrom(num, data, off, st).pending, segs)
    decreases if off <= |data| then |data| - off else 0
  {
    hide FromBigEndian, DecodeAck, ReadHeader;
    if off + 5 <= |data| {
      var bodyLen := FromBigEndian(data[off + 1..off + 5]);
      var next := off + 5 + bodyLen;
      if bodyLen <= MAX_BODY {
        if data[off] == TYPE_ITEM {
          var h := ReadHeader(data[off + 5..], bodyLen);
          if h.Some? {
            ReplayFiles(num, data, next, SeeItem(num, off, h.value, st), segs);
          }
        } else if next <= |data| {
          if data[off] == TYPE_ACK && DecodeAck(data[off + 5..next]).Some? {
            ReplayFiles(num, data, next, SeeAck(DecodeAck(data[off + 5..next]).value, st), segs);
          } else {
            ReplayFiles(num, data, next, st, segs);
          }
        }
      }
    }
  }

  lemma {:induction false} RecoverFiles(segs: Segments, k: nat)
    requires k <= |segs|
    ensures InFiles(Recover(segs[..k]).pending, segs)
  {
    hide ReplayFrom, SegmentBytes;
    if k > 0 {
      var n := k - 1;
      RecoverFiles(segs, n);
      assert segs[..k][..n] == segs[..n];
      if segs[n].Some? {
        ReplayFiles(n, SegmentBytes(segs[n].value), HEADER_SIZE, Recover(segs[..n]), segs);
      }
    }
  }

  ghost predicate OldestFirst(refs: seq<DiskRef>) {
    forall i, j | 0 <= i < j < |refs| :: refs[i].enqueuedAt <= refs[j].enqueuedAt
  }

  method InsertByAge(refs: seq<DiskRef>, r: DiskRef) returns (out: seq<DiskRef>)
    requires OldestFirst(refs)
    ensures OldestFirst(out)
    ensures exists i | 0 <= i <= |refs| :: out == refs[..i] + [r] + refs[i..]
  {
    var i := 0;
    while i < |refs| && refs[i].enqueuedAt <= r.enqueuedAt
      invariant 0 <= i <= |refs|
      invariant forall j | 0 <= j < i :: refs[j].enqueuedAt <= r.enqueuedAt
    {
      i := i + 1;
    }
    out := refs[..i] + [r] + refs[i..];
  }

  lemma ReopenedShape(segs: Segments, maxBytes: int, io: nat -> IO)
    ensures var d := Reopened(segs, maxBytes, io);
            d == DiskState(d.segs, true, DiskBytes(d.segs), maxBytes, false, 0, io)
  {
  }

  /** openLatestSegment: the directory once a segment with room for writing is its last file. */
  method OpenLatest(found: seq<File>, ghost segs: Segments) returns (latest: seq<File>)
    requires Holds(found, segs) && (segs != [] ==> Live(segs))
    ensures |latest| > 0 && latest[|latest| - 1].Some?
    ensures forall maxBytes, io :: Holds(latest, Reopened(segs, maxBytes, io).segs)
  {
    EmptySegment();
    hide SegmentSize, DiskBytes, SegmentBytes;
    if |found| == 0 || |found[|found| - 1].value| >= SEGMENT_MAX {
      latest := found + [Some(MAGIC + [1])];
      assert Holds(latest, segs + [Some([])]);
    } else {
      latest := found;
    }
  }

  class DiskStore {
    const maxBytes: int
    const io: nat -> IO
    var files: seq<File>
    var segmentNum: nat
    var segmentSize: nat
    var hasFile: bool
    var totalBytes: int
    var closed: bool
    var tick: nat
    ghost var log: Segments

    ghost predicate Valid()
      reads this
    {
      && Live(log) && Holds(files, log)
      && segmentNum == Active(log)
      && segmentSize == SegmentSize(ActiveRecords(log))
    }

    ghost function View(): Disk
      requires Valid()
      reads this
    {
      DiskState(log, hasFile, totalBytes, maxBytes, closed, tick, io)
    }

    method TotalOf() returns (total: nat)
      requires Holds(files, log)
      ensures total == DiskBytes(log)
    {
      total := 0;
      var n := 0;
      while n < |files|
        invariant 0 <= n <= |files|
        invariant total == DiskBytes(log[..n])
      {
        assert log[..n + 1][..n] == log[..n];
        if files[n].Some? {
          total := total + |files[n].value|;
        }
        n := n + 1;
      }
      assert log[..n] == log;
    }

    /** newDiskStore: the newest file if it has room, else the next number; then a recount. */
    constructor (found: seq<File>, ghost segs: Segments, maxBytes: int, io: nat -> IO)
      requires Holds(found, segs) && (segs != [] ==> Live(segs))
      ensures Valid() && View() == Reopened(segs, maxBytes, io)
    {
      this.maxBytes := maxBytes;
      this.io := io;
      var latest := OpenLatest(found, segs);
      hide SegmentSize, DiskBytes, SegmentBytes, Reopened;
      files := latest;
      segmentNum, segmentSize := |latest| - 1, |latest[|latest| - 1].value|;
      hasFile, closed, tick := true, false, 0;
      totalBytes := 0;
      log := Reopened(segs, maxBytes, io).segs;
      new;
      totalBytes := TotalOf();
      assert View() == Reopened(segs, maxBytes, io) by { ReopenedShape(segs, maxBytes, io); }
    }

    method ActiveSegment() returns (n: nat)
      requires Valid()
      ensures n == Active(View().segs)
    {
      n := segmentNum;
    }

    method CreateSegment(opens: bool) returns (ok: bool)
      requires Valid()
      modifies this
      ensures Valid() && ok == opens
      ensures View() == if opens then Rotated(old(View())) else old(View()).(hasFile := false)
    {
      if !opens {
        hasFile := false;
        return false;
      }
      files := files + [Some(MAGIC + [1])];
      log := log + [Some([])];
      segmentNum := segmentNum + 1;
      segmentSize := HEADER_SIZE;
      return true;
    }

    method AppendRecord(recType: byte, body: seq<byte>, ghost r: Record) returns (res: AppendResult)
      requires Valid() && body == Body(r) && recType == (if r.ItemRec? then TYPE_ITEM else TYPE_ACK)
      modifies this
      ensures Valid()
      ensures (View(), res) == Append(old(View()), r)
    {
      hide SegmentBytes, SegmentSize, Body, BigEndian;
      if closed {
        return StoreClosed;
      }
      if recType == TYPE_ITEM && maxBytes > 0 && totalBytes + (5 + |body|) > maxBytes {
        return Full;
      }
      if !hasFile {
        return IOError;
      }
      var outcome := io(tick);
      tick := tick + 1;
      if segmentSize + (5 + |body|) > SEGMENT_MAX {
        var ok := CreateSegment(!outcome.openFails);
        if !ok {
          return IOError;
        }
      }
      res := WriteRecord(recType, body, outcome.writeFails, r);
    }

    method WriteRecord(recType: byte, body: seq<byte>, fails: bool, ghost r: Record) returns (res: AppendResult)
      requires Valid() && body == Body(r) && recType == (if r.ItemRec? then TYPE_ITEM else TYPE_ACK)
      modifies this
      ensures Valid()
      ensures (View(), res) == Write(old(View()), r, fails)
    {
      hide SegmentBytes, SegmentSize, Body, BigEndian;
      if fails {
        return IOError;
      }
      var segment, offset := segmentNum, segmentSize;
      var header := [recType] + BigEndian(4, |body|);
      SegmentSnoc(ActiveRecords(log), r);
      Assoc(files[segmentNum].value, header, body);
      assert header + body == RecordBytes(r);
      files := files[segmentNum := Some(files[segmentNum].value + header + body)];
      log := log[segmentNum := Some(ActiveRecords(log) + [r])];
      segmentSize := segmentSize + (|header| + |body|);
      totalBytes := totalBytes + (|header| + |body|);
      return Written(segment, offset);
    }

    method AppendItem(item: Item) returns (res: AppendResult)
      requires Valid()
      modifies this
      ensures Valid()
      ensures (View(), res) == SpillDisk.AppendItem(old(View()), item)
    {
      var body := EncodeItemRecord(item);
      if body.None? {
        return TooLarge;
      }
      res := AppendRecord(TYPE_ITEM, body.value, ItemRec(item));
    }

    method AppendAck(id: Id) returns (res: AppendResult)
      requires Valid()
      modifies this
      ensures Valid()
      ensures (View(), res) == SpillDisk.AppendAck(old(View()), id)
    {
      res := AppendRecord(TYPE_ACK, BigEndian(4, |id| % TWO_32) + id, AckRec(id));
    }

    method ReadItem(segment: nat, offset: nat) returns (res: ReadResult)
      requires Valid()
      modifies this
      ensures Valid()
      ensures (View(), res) == SpillDisk.ReadItem(old(View()), segment, offset)
    {
      hide SegmentBytes, DecodeItem, FromBigEndian, SegmentSize;
      if closed {
        return ReadClosed;
      }
      var outcome := io(tick);
      tick := tick + 1;
      if outcome.readFails || segment >= |files| || files[segment].None? {
        return Unreadable;
      }
      var data := files[segment].value;
      if offset + 5 > |data| || data[offset] != TYPE_ITEM {
        return Unreadable;
      }
      var bodyLen := FromBigEndian(data[offset + 1..offset + 5]);
      if bodyLen > MAX_BODY || offset + 5 + bodyLen > |data| {
        return Unreadable;
      }
      var item := DecodeItem(data[offset + 5..offset + 5 + bodyLen]);
      return if item.Some? then Read(item.value) else Unreadable;
    }

    method RemoveSegment(num: nat) returns (ok: bool)
      requires Valid()
      modifies this
      ensures Valid()
      ensures (View(), ok) == Remove(old(View()), num)
    {
      hide SegmentBytes, DiskBytes, SegmentSize;
      if closed || num >= segmentNum {
        return false;
      }
      if files[num].None? {
        totalBytes := TotalOf();
        return true;
      }
      var outcome := io(tick);
      tick := tick + 1;
      if outcome.removeFails {
        return false;
      }
      totalBytes := totalBytes - |files[num].value|;
      if totalBytes < 0 {
        totalBytes := 0;
      }
      files := files[num := None];
      log := log[num := None];
      return true;
    }

    /** recover: replays the files in number order and returns what is still owed, oldest first. */
    method Recover() returns (refs: seq<DiskRef>)
      requires Valid()
      ensures OldestFirst(refs)
      ensures Enumerates(refs, SpillDisk.Recover(log).pending)
    {
      hide SegmentBytes, ReplayBytes;
      var st := EMPTY;
      var n := 0;
      while n < |files|
        invariant 0 <= n <= |files|
        invariant st == SpillDisk.Recover(log[..n])
      {
        assert log[..n + 1][..n] == log[..n];
        if files[n].Some? {
          st := ReplaySegment(n, files[n].value, st);
        }
        n := n + 1;
      }
      assert log[..n] == log;
      RecoverKeys(log);
      refs := ByAge(st.pending);
    }

    /** Where compaction starts after a restart: at or below the active segment, every file
        present and every recovered reference. */
    method SeedCursor(recovered: seq<DiskRef>) returns (low: nat)
      requires Valid() && Enumerates(recovered, SpillDisk.Recover(log).pending)
      ensures low == LowestFile(log)
    {
      hide SegmentBytes, SegmentSize, SpillDisk.Recover;
      LowestFileFacts(log);
      var oldest := 0;
      while files[oldest].None?
        invariant 0 <= oldest <= LowestFile(log)
        decreases |files| - oldest
      {
        oldest := oldest + 1;
      }
      low := segmentNum;
      if oldest < low {
        low := oldest;
      }
      RecoverFiles(log, |log|);
      assert log[..|log|] == log;
      var i := 0;
      while i < |recovered|
        invariant 0 <= i <= |recovered| && low == LowestFile(log)
      {
        var r := recovered[i];
        assert r in recovered;
        if r.segment < low {
          low := r.segment;
        }
        i := i + 1;
      }
    }

    method Close()
      requires Valid()
      modifies this
      ensures Valid() && View() == old(View()).(closed := true, hasFile := false)
    {
      closed := true;
      hasFile := false;
    }
  }

  /** The references of a map, in some order of their clocks. */
  method ByAge(pending: map<Id, DiskRef>) returns (refs: seq<DiskRef>)
    requires Keyed(pending)
    ensures OldestFirst(refs)
    ensures Enumerates(refs, pending)
  {
    refs := [];
    var left := pending.Keys;
    while left != {}
      invariant left <= pending.Keys
      invariant OldestFirst(refs) && Distinct(refs)
      invariant forall r | r in refs :: r.id in pending && pending[r.id] == r && r.id !in left
      invariant forall id | id in pending :: id in left || pending[id] in refs
      decreases left
    {
      var id :| id in left;
      var r := pending[id];
      var out := InsertByAge(refs, r);
      ghost var i :| 0 <= i <= |refs| && out == refs[..i] + [r] + refs[i..];
      InsertKeeps(refs, r, i);
      refs := out;
      left := left - {id};
    }
  }

  lemma InsertKeeps(refs: seq<DiskRef>, r: DiskRef, i: nat)
    requires i <= |refs| && Distinct(refs) && forall x | x in refs :: x.id != r.id
    ensures Distinct(refs[..i] + [r] + refs[i..])
    ensures forall x :: x in refs[..i] + [r] + refs[i..] <==> x == r || x in refs
  {
    var out := refs[..i] + [r] + refs[i..];
    forall a, b | 0 <= a < b < |out| ensures out[a].id != out[b].id {
      assert a != i ==> out[a] == refs[if a < i then a else a - 1];
      assert b != i ==> out[b] == refs[if b < i then b else b - 1];
    }
    forall x ensures x in out <==> x == r || x in refs {
      assert refs == refs[..i] + refs[i..];
    }
  }
}
