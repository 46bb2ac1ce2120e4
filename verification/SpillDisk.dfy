/** The spill directory as a value: segment files in number order and the write
    bookkeeping of the store, with every I/O outcome supplied by an oracle. */
module SpillDisk {
  import opened Bytes
  import opened WalCodec
  import opened Wal

  const SEGMENT_MAX: nat := 0x200_0000

  /** How one call into the file system ends. */
  datatype IO = IO(openFails: bool, writeFails: bool, readFails: bool, removeFails: bool)

  type Segments = seq<Option<seq<Record>>>

  /** segs[n] is file number n, None once it is gone; the last one is the segment being
      written. hasFile is false after a rotation that could not open its new file. The n-th call
      into the file system ends as io(n) says. */
  datatype DiskState = DiskState(
    segs: Segments,
    hasFile: bool,
    total: int,
    maxBytes: int,
    closed: bool,
    tick: nat,
    io: nat -> IO)

  type Disk = d: DiskState | Live(d.segs)
    witness DiskState([Some([])], true, HEADER_SIZE, 0, false, 0, n => IO(false, false, false, false))

  datatype AppendResult = Written(segment: nat, offset: nat) | Full | StoreClosed | TooLarge | IOError

  predicate Live(segs: Segments) {
    segs != [] && segs[|segs| - 1].Some?
  }

  function Active(segs: Segments): nat
    requires segs != []
  {
    |segs| - 1
  }

  function ActiveRecords(segs: Segments): seq<Record>
    requires Live(segs)
  {
    segs[|segs| - 1].value
  }

  function Records(segs: Segments, n: nat): seq<Record> {
    if n < |segs| && segs[n].Some? then segs[n].value else []
  }

  /** Bytes in all segment files together. */
  function DiskBytes(segs: Segments): nat {
    if segs == [] then 0 else
    DiskBytes(segs[..|segs| - 1]) + FileSize(segs[|segs| - 1])
  }

  function FileSize(f: Option<seq<Record>>): nat {
    if f.Some? then SegmentSize(f.value) else 0
  }

  // ---- appendRecord ----

  function Rotated(d: Disk): Disk {
    d.(segs := d.segs + [Some([])])
  }

  function Append(d: Disk, r: Record): (Disk, AppendResult)
  {
    var size := RecordSize(r);
    if d.closed then (d, StoreClosed)
    else if r.ItemRec? && d.maxBytes > 0 && d.total + size > d.maxBytes then (d, Full)
    else if !d.hasFile then (d, IOError)
    else
      var io := d.io(d.tick);
      var d1 := d.(tick := d.tick + 1);
      if SegmentSize(ActiveRecords(d.segs)) + size > SEGMENT_MAX then
        if io.openFails then (d1.(hasFile := false), IOError) else Write(Rotated(d1), r, io.writeFails)
      else Write(d1, r, io.writeFails)
  }

  function Write(d: Disk, r: Record, fails: bool): (Disk, AppendResult)
  {
    if fails then (d, IOError) else
    var recs := ActiveRecords(d.segs);
    var n := Active(d.segs);
    (d.(segs := d.segs[n := Some(recs + [r])], total := d.total + RecordSize(r)), Written(n, SegmentSize(recs)))
  }

  function AppendItem(d: Disk, item: Item): (Disk, AppendResult)
  {
    if Encodable(item) then Append(d, ItemRec(item)) else (d, TooLarge)
  }

  function AppendAck(d: Disk, id: Id): (Disk, AppendResult)
  {
    Append(d, AckRec(id))
  }

  // ---- readItem, removeSegment, reopening ----

  datatype ReadResult = Read(item: Item) | ReadClosed | Unreadable

  function ReadItem(d: Disk, segment: nat, offset: nat): (Disk, ReadResult) {
    if d.closed then (d, ReadClosed) else
    var d1 := d.(tick := d.tick + 1);
    if d.io(d.tick).readFails || segment >= |d.segs| || d.segs[segment].None? then (d1, Unreadable) else
    match ReadAt(SegmentBytes(d.segs[segment].value), offset)
    case None => (d1, Unreadable)
    case Some(item) => (d1, Read(item))
  }

  function Remove(d: Disk, n: nat): (Disk, bool)
  {
    if d.closed || n >= Active(d.segs) then (d, false)
    else if d.segs[n].None? then (d.(total := DiskBytes(d.segs)), true)
    else
      var d1 := d.(tick := d.tick + 1);
      if d.io(d.tick).removeFails then (d1, false) else
      var left := d.total - FileSize(d.segs[n]);
      (d1.(segs := d.segs[n := None], total := if left < 0 then 0 else left), true)
  }

  /** A new process opening the directory: the newest file if it has room, else the next number. */
  function Reopened(segs: Segments, maxBytes: int, io: nat -> IO): Disk
  {
    var files := if !Live(segs) then segs + [Some([])]
                 else if SegmentSize(ActiveRecords(segs)) >= SEGMENT_MAX then segs + [Some([])]
                 else segs;
    DiskState(files, true, DiskBytes(files), maxBytes, false, 0, io)
  }

  /** The number of the oldest file in the directory. */
  function LowestFile(segs: Segments): nat {
    if segs == [] || segs[0].Some? then 0 else 1 + LowestFile(segs[1..])
  }

  lemma {:induction false} LowestFileFacts(segs: Segments)
    requires Live(segs)
    ensures LowestFile(segs) <= Active(segs)
    ensures forall i | 0 <= i < LowestFile(segs) :: segs[i].None?
    ensures segs[LowestFile(segs)].Some?
  {
    if segs[0].None? {
      LowestFileFacts(segs[1..]);
      forall i | 0 <= i < LowestFile(segs) ensures segs[i].None? {
        if i > 0 {
          assert segs[i] == segs[1..][i - 1];
        }
      }
    }
  }

  // ---- recover ----

  const EMPTY: Recovery := Recovery(map[], {})

  /** What recover() computes from the bytes of the files, oldest segment first. */
  function Recover(segs: Segments): Recovery {
    if segs == [] then EMPTY else
    var n := |segs| - 1;
    var st := Recover(segs[..n]);
    if segs[n].None? then st else ReplayBytes(n, SegmentBytes(segs[n].value), st)
  }

  ghost predicate Distinct(refs: seq<DiskRef>) {
    forall i, j | 0 <= i < j < |refs| :: refs[i].id != refs[j].id
  }

  /** recover() returns the pending references, each once, in some order. */
  ghost predicate Enumerates(found: seq<DiskRef>, pending: map<Id, DiskRef>) {
    && Distinct(found)
    && (forall r | r in found :: r.id in pending && pending[r.id] == r)
    && (forall id | id in pending :: pending[id] in found)
  }

  /** The same, record for record. */
  function Replay(segs: Segments): Recovery {
    if segs == [] then EMPTY else
    var n := |segs| - 1;
    var st := Replay(segs[..n]);
    if segs[n].None? then st else Fold(n, segs[n].value, st)
  }

  ghost predicate AllReadable(segs: Segments) {
    forall n, i | 0 <= n < |segs| && 0 <= i < |Records(segs, n)| :: Readable(Records(segs, n)[i])
  }

  lemma AllReadablePrefix(segs: Segments, k: nat)
    requires AllReadable(segs) && k <= |segs|
    ensures AllReadable(segs[..k])
  {
    forall n, i | 0 <= n < k && 0 <= i < |Records(segs[..k], n)| ensures Readable(Records(segs[..k], n)[i]) {
      assert Records(segs[..k], n) == Records(segs, n);
    }
  }

  /** Parsing the files is visiting their records, for a directory of readable records. */
  lemma {:induction false} RecoverIsReplay(segs: Segments)
    requires AllReadable(segs)
    ensures Recover(segs) == Replay(segs)
  {
    hide ReplayBytes, Fold, SegmentBytes;
    if segs != [] {
      var n := |segs| - 1;
      AllReadablePrefix(segs, n);
      RecoverIsReplay(segs[..n]);
      if segs[n].Some? {
        var recs := Records(segs, n);
        assert recs == segs[n].value;
        ReplayWhole(n, recs, Replay(segs[..n]));
      }
    }
  }
}
