/** What the byte counter of the store means for the bytes in the directory. */
module DiskAccounting {
  import opened Bytes
  import opened WalCodec
  import opened Wal
  import opened SpillDisk

  datatype DiskOp = Appending(r: Record) | Removing(n: nat) | Reopening(maxBytes: int, io: nat -> IO)

  /** rotations: new segments since totalBytes was last recounted. acks: bytes of ack records since
      the last item. headers: how many segment headers the counter lacked at the last item, and the
      rotations since. recounted: a recount came after the last item. base: the larger of the cap
      and what the directory held when opened. */
  datatype Meter = Meter(d: Disk, rotations: nat, acks: nat, headers: nat, recounted: bool, base: int)

  function Max(a: int, b: int): int {
    if a > b then a else b
  }

  function Opened(segs: Segments, maxBytes: int, io: nat -> IO): Meter {
    var d := Reopened(segs, maxBytes, io);
    Meter(d, 0, 0, 0, false, Max(maxBytes, DiskBytes(d.segs)))
  }

  function Next(m: Meter, op: DiskOp): Meter {
    match op
    case Appending(r) =>
      var (d, res) := Append(m.d, r);
      var grown := |d.segs| - |m.d.segs|;
      var rotated := if grown > 0 then grown else 0;
      var m1 := m.(d := d, rotations := m.rotations + rotated, headers := m.headers + rotated);
      if !res.Written? then m1
      else if r.AckRec? then m1.(acks := m.acks + RecordSize(r))
      else m1.(acks := 0, headers := m1.rotations, recounted := false)
    case Removing(n) =>
      var recount := !m.d.closed && n < Active(m.d.segs) && m.d.segs[n].None?;
      var m1 := m.(d := Remove(m.d, n).0);
      if recount then m1.(rotations := 0, recounted := true) else m1
    case Reopening(maxBytes, io) => Opened(m.d.segs, maxBytes, io)
  }

  /** The counter never overstates the directory and understates it by one header per rotation since
      the last recount at most. The directory outgrows the cap by the acks since the last item and
      the headers the counter lacked there or that came since; those are the unsettled ones as long
      as no recount came in between. */
  ghost predicate Exact(m: Meter) {
    && 0 <= m.d.total <= DiskBytes(m.d.segs) <= m.d.total + HEADER_SIZE * m.rotations
    && m.d.maxBytes <= m.base
    && DiskBytes(m.d.segs) <= m.base + m.acks + HEADER_SIZE * m.headers
    && (!m.recounted ==> m.headers == m.rotations)
  }

  lemma {:induction false} BytesUpdate(segs: Segments, n: nat, f: Option<seq<Record>>)
    requires n < |segs|
    ensures DiskBytes(segs[n := f]) == DiskBytes(segs) - FileSize(segs[n]) + FileSize(f)
    decreases |segs|
  {
    hide SegmentSize;
    var last := |segs| - 1;
    if n == last {
      assert segs[n := f][..last] == segs[..last];
    } else {
      assert segs[n := f][..last] == segs[..last][n := f];
      BytesUpdate(segs[..last], n, f);
    }
  }

  lemma BytesRotate(segs: Segments)
    ensures DiskBytes(segs + [Some([])]) == DiskBytes(segs) + HEADER_SIZE
  {
    assert (segs + [Some([])])[..|segs|] == segs;
  }

  lemma WriteBytes(d: Disk, r: Record, fails: bool)
    ensures var (d', res) := Write(d, r, fails);
            && d'.maxBytes == d.maxBytes && |d'.segs| == |d.segs|
            && d'.total == d.total + (if res.Written? then RecordSize(r) else 0)
            && DiskBytes(d'.segs) == DiskBytes(d.segs) + (if res.Written? then RecordSize(r) else 0)
  {
    hide DiskBytes, RecordSize;
    if !fails {
      var recs := ActiveRecords(d.segs);
      assert (recs + [r])[..|recs|] == recs;
      assert SegmentSize(recs + [r]) == SegmentSize(recs) + RecordSize(r);
      BytesUpdate(d.segs, Active(d.segs), Some(recs + [r]));
    }
  }

  lemma AppendBytes(d: Disk, r: Record)
    ensures var (d', res) := Append(d, r); var size := if res.Written? then RecordSize(r) else 0;
            && d'.maxBytes == d.maxBytes && d'.total == d.total + size
            && 0 <= |d'.segs| - |d.segs| <= 1
            && DiskBytes(d'.segs) == DiskBytes(d.segs) + size + HEADER_SIZE * (|d'.segs| - |d.segs|)
            && (res.Written? && r.ItemRec? && d.maxBytes > 0 ==> d'.total <= d.maxBytes)
            && (r.AckRec? ==> !res.Full?)
            && (res.Full? <==> !d.closed && r.ItemRec? && d.maxBytes > 0 && d.total + RecordSize(r) > d.maxBytes)
  {
    hide DiskBytes, RecordSize, SegmentSize, Write;
    var d1 := d.(tick := d.tick + 1);
    BytesRotate(d.segs);
    WriteBytes(d1, r, d.io(d.tick).writeFails);
    WriteBytes(Rotated(d1), r, d.io(d.tick).writeFails);
    NeverFull(d1, r, d.io(d.tick).writeFails);
    NeverFull(Rotated(d1), r, d.io(d.tick).writeFails);
  }

  lemma NeverFull(d: Disk, r: Record, fails: bool)
    ensures !Write(d, r, fails).1.Full?
  {
  }

  lemma {:induction false} BytesPart(segs: Segments, n: nat)
    requires n < |segs|
    ensures FileSize(segs[n]) <= DiskBytes(segs)
  {
    hide SegmentSize;
    var last := |segs| - 1;
    if n < last {
      BytesPart(segs[..last], n);
    }
  }

  lemma RemoveBytes(m: Meter, n: nat)
    requires Exact(m)
    ensures Exact(Next(m, Removing(n)))
  {
    hide DiskBytes, SegmentSize;
    if !m.d.closed && n < Active(m.d.segs) && m.d.segs[n].Some? {
      BytesUpdate(m.d.segs, n, None);
      BytesPart(m.d.segs, n);
    }
  }

  /** Every call into the store, however it ends, keeps the accounting exact. */
  lemma AccountingStep(m: Meter, op: DiskOp)
    requires Exact(m) && m.d.maxBytes > 0 && (op.Reopening? ==> op.maxBytes > 0)
    ensures Exact(Next(m, op)) && Next(m, op).d.maxBytes > 0
  {
    hide DiskBytes, SegmentSize, RecordSize, Append;
    match op {
      case Appending(r) => AppendBytes(m.d, r);
      case Removing(n) => RemoveBytes(m, n);
      case Reopening(maxBytes, io) =>
    }
  }

  ghost function After(m: Meter, ops: seq<DiskOp>): Meter
    decreases |ops|
  {
    if ops == [] then m else After(Next(m, ops[0]), ops[1..])
  }

  lemma {:induction false} AccountingRun(m: Meter, ops: seq<DiskOp>)
    requires Exact(m) && m.d.maxBytes > 0 && forall op | op in ops && op.Reopening? :: op.maxBytes > 0
    ensures Exact(After(m, ops)) && After(m, ops).d.maxBytes > 0
    decreases |ops|
  {
    hide Exact, Next;
    if ops != [] {
      AccountingStep(m, ops[0]);
      AccountingRun(Next(m, ops[0]), ops[1..]);
    }
  }

  /** After every sequence of store calls on an opened directory, the counter is exact to within the
      unsettled headers and the directory within its bound. The next record is refused exactly when
      it is an item that would take the counter past the cap: acks are always let in. */
  lemma AccountingLaw(segs: Segments, maxBytes: int, io: nat -> IO, ops: seq<DiskOp>, r: Record)
    requires maxBytes > 0 && forall op | op in ops && op.Reopening? :: op.maxBytes > 0
    ensures var m := After(Opened(segs, maxBytes, io), ops); var (d, res) := Append(m.d, r);
            && Exact(m) && Exact(Next(m, Appending(r)))
            && (res.Full? <==> !m.d.closed && r.ItemRec? && m.d.total + RecordSize(r) > m.d.maxBytes)
            && (res.Written? && r.ItemRec? ==> d.total <= m.d.maxBytes)
            && (!res.Written? ==> d.total == m.d.total)
  {
    hide DiskBytes, SegmentSize, RecordSize, Append, After, Exact, Next;
    var first := Opened(segs, maxBytes, io);
    assert Exact(first) by { OpenedExact(segs, maxBytes, io); }
    AccountingRun(first, ops);
    AppendBytes(After(first, ops).d, r);
    AccountingStep(After(first, ops), Appending(r));
  }

  lemma OpenedExact(segs: Segments, maxBytes: int, io: nat -> IO)
    ensures Exact(Opened(segs, maxBytes, io))
  {
    hide DiskBytes, SegmentSize;
  }

  // ---- A recount does not settle the overshoot ----

  /** An item of 15 MiB, two of which fit a segment. */
  function Heavy(): Record {
    ItemRec(Item([1], seq(0xF0_0000, i => 0), 0, 0))
  }

  function TwoHeavy(): Segments {
    [None, Some([Heavy(), Heavy()])]
  }

  /** The headers that count are not those since the last recount: a third heavy item that fills the
      cap exactly starts a new segment, and then a recount forgets that its header is past the cap. */
  lemma RecountHidesOvershoot(io: nat -> IO)
    requires !io(0).openFails && !io(0).writeFails
    ensures Encodable(Heavy().item)
    ensures var cap := DiskBytes(TwoHeavy()) + RecordSize(Heavy());
            var m := After(Opened(TwoHeavy(), cap, io), [Appending(Heavy()), Removing(0)]);
            && m.rotations == 0 && m.acks == 0 && m.headers == 1
            && DiskBytes(m.d.segs) > m.base + m.acks + HEADER_SIZE * m.rotations
  {
    hide DiskBytes, RecordSize;
    var segs, r := TwoHeavy(), Heavy();
    var cap := DiskBytes(segs) + RecordSize(r);
    HeavySizes();
    var m0 := Opened(segs, cap, io);
    AppendBytes(m0.d, r);
    var m1 := Next(m0, Appending(r));
    assert m1.rotations == 1 && m1.base == cap && DiskBytes(m1.d.segs) == cap + HEADER_SIZE;
    var m2 := Next(m1, Removing(0));
    assert m2.d.segs == m1.d.segs;
    var ops := [Appending(r), Removing(0)];
    assert ops[1..] == [Removing(0)] && ops[1..][1..] == [];
    assert After(m0, ops) == After(m1, ops[1..]) == After(m2, []);
  }

  lemma HeavySizes()
    ensures RecordSize(Heavy()) == 0xF0_001A
    ensures SegmentSize([Heavy(), Heavy()]) == 0x1E0_0039
    ensures Encodable(Heavy().item)
  {
    hide ItemBody, RecordSize;
    assert RecordSize(Heavy()) == 0xF0_001A by { HeavySize(); }
    var r := Heavy();
    assert [r, r][..1] == [r] && [r][..0] == [];
  }

  lemma HeavySize()
    ensures RecordSize(Heavy()) == 0xF0_001A
  {
  }
}
