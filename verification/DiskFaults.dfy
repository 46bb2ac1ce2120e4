/** When a write to the spill directory can fail: what the file system answered in the meantime. */
module DiskFaults {
  import opened Wal
  import opened SpillDisk
  import opened DiskAccounting

  ghost predicate FaultAt(io: nat -> IO, t: nat) {
    io(t).openFails || io(t).writeFails
  }

  ghost predicate FaultBetween(io: nat -> IO, from: nat, to: nat) {
    exists t | from <= t < to :: FaultAt(io, t)
  }

  /** The store was not open for writing at a, or the file system failed an open or a write by b. */
  ghost predicate Faulty(a: Disk, b: Disk) {
    a.closed || !a.hasFile || FaultBetween(a.io, a.tick, b.tick)
  }

  /** b is a some calls later. Only a failed open takes the active file away. */
  ghost predicate Follows(a: Disk, b: Disk) {
    && b.io == a.io && b.maxBytes == a.maxBytes && b.closed == a.closed && a.tick <= b.tick
    && (a.hasFile && !b.hasFile ==> FaultBetween(a.io, a.tick, b.tick))
  }

  lemma FollowsTwice(a: Disk, b: Disk, c: Disk)
    requires Follows(a, b) && Follows(b, c)
    ensures Follows(a, c)
  {
    hide FaultAt;
  }

  /** A fault in a part of the time is one in the whole. */
  lemma FaultyWithin(a: Disk, b: Disk, c: Disk, d: Disk)
    requires Follows(a, b) && Follows(c, d) && Follows(b, c) && Faulty(b, c)
    ensures Faulty(a, d)
  {
    hide FaultAt;
  }

  /** Bytes that the cap leaves room for. */
  predicate RoomFor(d: Disk, bytes: int) {
    d.maxBytes <= 0 || d.total + bytes <= d.maxBytes
  }

  /** An append is written exactly when the store is open for it, the record is no item past the cap,
      and the file system lets it; it then adds the record at the end of the active segment, a new one
      exactly when the old one would outgrow its limit. */
  lemma AppendLaw(d: Disk, r: Record)
    ensures var (d', res) := Append(d, r);
            && Follows(d, d') && d'.total == d.total + (if res.Written? then RecordSize(r) else 0)
            && (res.Written? ==> !d.closed && d.hasFile && (r.AckRec? || RoomFor(d, RecordSize(r))))
            && (!res.Written? ==> Faulty(d, d') || (r.ItemRec? && !RoomFor(d, RecordSize(r))))
            && (res.Written? ==>
                  var before := ActiveRecords(d.segs); var full := SegmentSize(before) + RecordSize(r) > SEGMENT_MAX;
                  && |d'.segs| == |d.segs| + (if full then 1 else 0)
                  && ActiveRecords(d'.segs) == (if full then [] else before) + [r]
                  && forall n | 0 <= n < |d.segs| && (full || n < Active(d.segs)) :: d'.segs[n] == d.segs[n])
  {
    hide SegmentSize, RecordSize, DiskBytes;
    AppendBytes(d, r);
    var (d', res) := Append(d, r);
    if !d.closed && d.hasFile && !res.Full? {
      assert d.tick < d'.tick;
      assert !res.Written? ==> FaultAt(d.io, d.tick);
    }
  }

  lemma RemoveFollows(d: Disk, n: nat)
    ensures Follows(d, Remove(d, n).0)
  {
    hide DiskBytes;
  }

  lemma ReadFollows(d: Disk, segment: nat, offset: nat)
    ensures Follows(d, ReadItem(d, segment, offset).0)
  {
    hide ReadAt, SegmentBytes;
  }
}
