/** Spilling refines a plain first-in first-out queue. */
module QueueFifo {
  import opened Bytes
  import opened WalCodec
  import opened Wal
  import opened SpillDisk
  import opened WalLog
  import opened QueueModel
  import opened QueueInvariant
  import opened QueueSteps
  import opened QueueRuns
  import opened QueueTheorems
  import opened QueueLaws

  /** An item as its record tells it: the clock reduced to 64 bits. */
  function Told(item: Item): Item {
    item.(enqueuedAt := FromWord(ToWord(item.enqueuedAt)))
  }

  ghost function ToldAll(items: seq<Item>): seq<Item> {
    seq(|items|, i requires 0 <= i < |items| => Told(items[i]))
  }

  /** The item a reference stands for. */
  ghost function Resolve(segs: Segments, r: DiskRef): Item {
    match ReadAt(SegmentBytes(Records(segs, r.segment)), r.offset)
    case Some(item) => item.(attempts := r.attempts)
    case None => Item(r.id, [], r.enqueuedAt, r.attempts)
  }

  ghost function ResolveAll(segs: Segments, refs: seq<DiskRef>): seq<Item> {
    seq(|refs|, i requires 0 <= i < |refs| => Resolve(segs, refs[i]))
  }

  /** The queue seen as one sequence: what is on disk, then what is in memory. */
  ghost function Contents(q: Queue): seq<Item>
    requires q.store.Some?
  {
    ResolveAll(q.store.value.segs, q.refs) + ToldAll(q.mem)
  }

  // ---- What a reference resolves to ----

  ghost predicate Spot(recs: seq<Record>, i: int, r: DiskRef) {
    && 0 <= i < |recs| && recs[i].ItemRec? && Readable(recs[i])
    && recs[i].item.id == r.id && SegmentSize(recs[..i]) == r.offset
  }

  lemma ResolveSpot(segs: Segments, r: DiskRef, i: int)
    requires Spot(Records(segs, r.segment), i, r)
    ensures ReadAt(SegmentBytes(Records(segs, r.segment)), r.offset)
            == Some(Canonical(Records(segs, r.segment)[i].item))
    ensures Resolve(segs, r) == Told(Records(segs, r.segment)[i].item).(attempts := r.attempts)
  {
    hide ReadAt, SegmentBytes, SegmentSize;
    ReadBack(Records(segs, r.segment), i);
  }

  lemma LiveSpot(q: Queue, r: DiskRef) returns (i: int)
    requires q.store.Some? && LiveRef(q, r)
    requires Inv(q)
    ensures Spot(Records(q.store.value.segs, r.segment), i, r)
  {
    hide Conserved, Holding, Fates, ClaimsExact, Unsettled, TriedAll, Counted, Bounded, RefBag, Placed,
         AcksFollowItems, Replay, SegmentSize;
    var segs := q.store.value.segs;
    assert At(q.led.loc, r) by { LiveAt(q, r); }
    hide LiveRef;
    var ref := Replay(segs).pending[r.id];
    ReplayLocates(segs, r.id);
    var recs := Records(segs, ref.segment);
    i :| HoldsAt(recs, i, ref);
    assert Readable(recs[i]);
  }

  /** Records already in a segment stay where they are as it grows. */
  lemma SpotStays(recs: seq<Record>, recs': seq<Record>, i: int, r: DiskRef)
    requires Spot(recs, i, r) && recs <= recs'
    ensures Spot(recs', i, r) && recs'[i] == recs[i]
  {
    assert recs'[..i] == recs[..i];
  }

  ghost predicate SpotAll(segs: Segments, refs: seq<DiskRef>) {
    forall r | r in refs :: exists i :: Spot(Records(segs, r.segment), i, r)
  }

  lemma InvSpots(q: Queue)
    requires q.store.Some?
    requires Inv(q)
    ensures SpotAll(q.store.value.segs, q.refs)
  {
    hide Inv, Spot;
    forall r | r in q.refs ensures exists i :: Spot(Records(q.store.value.segs, r.segment), i, r) {
      assert LiveRef(q, r);
      var i := LiveSpot(q, r);
    }
  }

  ghost predicate KeepsUnder(segs: Segments, segs': Segments, refs: seq<DiskRef>) {
    forall r | r in refs :: Records(segs, r.segment) <= Records(segs', r.segment)
  }

  lemma ResolveKept(segs: Segments, segs': Segments, refs: seq<DiskRef>)
    requires SpotAll(segs, refs) && KeepsUnder(segs, segs', refs)
    ensures ResolveAll(segs', refs) == ResolveAll(segs, refs)
    ensures SpotAll(segs', refs)
  {
    hide Resolve, Spot;
    forall k | 0 <= k < |refs|
      ensures Resolve(segs', refs[k]) == Resolve(segs, refs[k])
      ensures exists i :: Spot(Records(segs', refs[k].segment), i, refs[k])
    {
      var r := refs[k];
      var i :| Spot(Records(segs, r.segment), i, r);
      SpotStays(Records(segs, r.segment), Records(segs', r.segment), i, r);
      ResolveSpot(segs, r, i);
      ResolveSpot(segs', r, i);
    }
  }

  lemma QuietKeepsRecords(a: Segments, b: Segments, refs: seq<DiskRef>)
    requires Quiet(a, b)
    ensures KeepsUnder(a, b, refs)
  {
    forall r | r in refs ensures Records(a, r.segment) <= Records(b, r.segment) {
      if b != a {
        assert r.segment < |a| ==> b[r.segment] == a[r.segment];
      }
    }
  }

  lemma LongerRecords(segs: Segments, rec: Record, n: nat)
    requires Live(segs)
    ensures Records(segs, n) <= Records(segs[Active(segs) := Some(ActiveRecords(segs) + [rec])], n)
  {
  }

  lemma AppendKeepsRecords(d: Disk, rec: Record, refs: seq<DiskRef>)
    ensures KeepsUnder(d.segs, Append(d, rec).0.segs, refs)
  {
    hide Append, Records, Quiet;
    var (d', res) := Append(d, rec);
    var base := AppendShape(d, rec);
    QuietKeepsRecords(d.segs, base, refs);
    if res.Written? {
      forall r | r in refs ensures Records(d.segs, r.segment) <= Records(d'.segs, r.segment) {
        LongerRecords(base, rec, r.segment);
      }
    } else {
      QuietKeepsRecords(d.segs, d'.segs, refs);
    }
  }

  /** A store with every read working, still open. */
  ghost predicate Calm(q: Queue) {
    q.store.Some? && !q.store.value.closed && !q.closed && forall n: nat :: !q.store.value.io(n).readFails
  }

  ghost predicate SameAir(a: Disk, b: Disk) {
    a.io == b.io && a.closed == b.closed
  }

  lemma AppendAir(d: Disk, rec: Record)
    ensures SameAir(d, Append(d, rec).0)
  {
    hide SegmentSize, RecordSize;
  }

  // ---- Spilling ----

  lemma SpillContents(q: Queue, item: Item)
    requires q.store.Some? && SpillItem(q, item).1.Written? && Fits(item)
    requires SpotAll(q.store.value.segs, q.refs)
    ensures var q' := SpillItem(q, item).0;
            && q'.store.Some? && SameAir(q.store.value, q'.store.value) && q'.mem == q.mem && q'.closed == q.closed
            && ResolveAll(q'.store.value.segs, q'.refs) == ResolveAll(q.store.value.segs, q.refs) + [Told(item)]
  {
    hide Append, SegmentSize, Resolve, Spot;
    var d := q.store.value;
    var (q', res) := SpillItem(q, item);
    var d' := q'.store.value;
    var rec := ItemRec(item);
    AppendAir(d, rec);
    AppendKeepsRecords(d, rec, q.refs);
    ResolveKept(d.segs, d'.segs, q.refs);
    var r := q'.refs[|q.refs|];
    assert Resolve(d'.segs, r) == Told(item) by { NewSpot(d, item); }
    assert ResolveAll(d'.segs, q'.refs) == ResolveAll(d'.segs, q.refs) + [Resolve(d'.segs, r)];
  }

  /** The reference made for a record just written resolves to its item. */
  lemma NewSpot(d: Disk, item: Item)
    requires Fits(item) && AppendItem(d, item).1.Written?
    ensures var (d', res) := AppendItem(d, item);
            Resolve(d'.segs, DiskRef(item.id, res.segment, res.offset, item.enqueuedAt, item.attempts)) == Told(item)
  {
    hide Append, SegmentSize, Resolve;
    var rec := ItemRec(item);
    var (d', res) := AppendItem(d, item);
    var base := AppendShape(d, rec);
    var recs := ActiveRecords(base);
    var r := DiskRef(item.id, res.segment, res.offset, item.enqueuedAt, item.attempts);
    assert Records(d'.segs, r.segment) == recs + [rec];
    assert (recs + [rec])[..|recs|] == recs;
    assert Spot(recs + [rec], |recs|, r);
    ResolveSpot(d'.segs, r, |recs|);
  }

  ghost predicate SameCalm(q: Queue, q': Queue)
    requires q.store.Some?
  {
    q'.store.Some? && SameAir(q.store.value, q'.store.value) && q'.closed == q.closed
  }

  lemma QuietContents(q: Queue, d: Disk)
    requires q.store.Some? && SpotAll(q.store.value.segs, q.refs) && Quiet(q.store.value.segs, d.segs)
    ensures ResolveAll(d.segs, q.refs) == ResolveAll(q.store.value.segs, q.refs)
  {
    QuietKeepsRecords(q.store.value.segs, d.segs, q.refs);
    ResolveKept(q.store.value.segs, d.segs, q.refs);
  }

  lemma MemFits(q: Queue)
    requires Inv(q)
    ensures forall x | x in q.mem :: Fits(x)
  {
    hide Conserved, Holding, Placed, LogInv, ClaimsExact, Unsettled, Counted, Bounded, RefsOk, EntriesOk;
  }

  lemma ToldHead(items: seq<Item>)
    requires items != []
    ensures ToldAll(items) == [Told(items[0])] + ToldAll(items[1..])
  {
  }

  lemma ContentsSame(q: Queue, b: Queue)
    requires q.store.Some? && b.store.Some? && q.store.value.segs == b.store.value.segs
    requires q.refs == b.refs && q.mem == b.mem
    ensures Contents(q) == Contents(b)
  {
  }

  /** Eviction moves the oldest memory item to the end of the disk part: the whole sequence stays. */
  lemma EvictContents(q: Queue)
    requires q.store.Some? && q.mem != [] && Evict(q).1
    requires Inv(q)
    ensures SameCalm(q, Evict(q).0) && Contents(Evict(q).0) == Contents(q)
    ensures |Evict(q).0.mem| == |q.mem| - 1
  {
    hide Inv, SpotAll, SpillItem, ResolveAll, ToldAll;
    InvSpots(q);
    MemFits(q);
    var x := q.mem[0];
    SpillContents(Take(q), x);
    ToldHead(q.mem);
    Regroup(ResolveAll(q.store.value.segs, q.refs), [], [Told(x)], ToldAll(q.mem[1..]));
    EvictShrinks(q);
  }

  lemma {:induction false} MakeRoomContents(q: Queue, need: int)
    requires q.store.Some? && q.handRefs == [] && MakeRoom(q, need).1
    requires Inv(q)
    ensures SameCalm(q, MakeRoom(q, need).0) && Contents(MakeRoom(q, need).0) == Contents(q)
    ensures !CanAccept(MakeRoom(q, need).0, need) ==> MakeRoom(q, need).0.mem == []
    decreases |q.mem|
  {
    hide Inv, Contents, Evict, CanAccept;
    if !CanAccept(q, need) && q.mem != [] {
      assert Evict(q).1;
      EvictContents(q);
      InvCounted(q);
      EvictPath(q);
      PathInv(q, Evict(q).0);
      MakeRoomContents(Evict(q).0, need);
    }
  }

  lemma PutContents(q: Queue, item: Item)
    requires q.store.Some?
    ensures Contents(Accept(q, item)) == Contents(q) + [Told(item)]
  {
    hide ResolveAll;
    assert ToldAll(q.mem + [item]) == ToldAll(q.mem) + [Told(item)];
    var head := ResolveAll(q.store.value.segs, q.refs);
    assert head + (ToldAll(q.mem) + [Told(item)]) == head + ToldAll(q.mem) + [Told(item)];
  }

  /** An accepted arrival goes to the end of the sequence, wherever it is kept; one left waiting
      changes nothing. */
  lemma EnqueueContents(q: Queue, item: Item)
    requires q.store.Some? && q.handRefs == [] && Fits(item)
    requires Enqueue(q, item).1.Accepted? || Enqueue(q, item).1.Waits?
    requires Inv(q)
    ensures var (q', res) := Enqueue(q, item);
            && SameCalm(q, q')
            && Contents(q') == if res.Accepted? then Contents(q) + [Told(item)] else Contents(q)
  {
    hide Inv, Contents, MakeRoom, CanAccept, SpillItem;
    var size := ItemSize(item);
    if CanAccept(q, size) {
      PutContents(q, item);
    } else {
      MakeRoomContents(q, size);
      MakeRoomPath(q, size);
      var q1 := MakeRoom(q, size).0;
      PathInv(q, q1);
      if CanAccept(q1, size) {
        PutContents(q1, item);
      } else if !RefsFull(q1) {
        SpillStraight(q1, item);
        var q2 := SpillItem(q1, item).0;
        ContentsSame(Admit(q2, item), q2);
      }
    }
  }

  /** An item too large for memory goes straight to disk, after everything else. */
  lemma SpillStraight(q: Queue, item: Item)
    requires q.store.Some? && q.mem == [] && Fits(item)
    requires Inv(q)
    ensures var (q', res) := SpillItem(q, item);
            && SameCalm(q, q')
            && Contents(q') == if res.Written? then Contents(q) + [Told(item)] else Contents(q)
  {
    hide Inv, SpotAll, ResolveAll, SpillItem;
    InvSpots(q);
    SpillShape(q, item);
    var (q', res) := SpillItem(q, item);
    assert SameAir(q.store.value, q'.store.value) by { SpillAir(q, item); }
    if res.Written? {
      SpillContents(q, item);
    } else {
      QuietContents(q, q'.store.value);
    }
  }

  lemma SpillAir(q: Queue, item: Item)
    requires q.store.Some?
    ensures SpillItem(q, item).0.store.Some? && SameAir(q.store.value, SpillItem(q, item).0.store.value)
    ensures SpillItem(q, item).0.closed == q.closed
  {
    hide Append;
    AppendAir(q.store.value, ItemRec(item));
  }

  // ---- Handing out ----

  lemma ToldTwice(item: Item)
    ensures Told(Told(item)) == Told(item)
  {
    var w := ToWord(item.enqueuedAt);
    assert (w - TWO_64) % TWO_64 == w;
  }

  lemma PullRefContents(q: Queue)
    requires Calm(q) && q.refs != []
    requires Inv(q)
    ensures var (q', pull) := PullRef(q);
            && Calm(q') && q'.store.value.segs == q.store.value.segs && q'.mem == q.mem && q'.refs == q.refs[1..]
            && pull == Got(Resolve(q.store.value.segs, q.refs[0]))
            && Told(pull.item) == pull.item
  {
    hide Inv, ReadAt, SegmentBytes;
    var r := q.refs[0];
    var segs := q.store.value.segs;
    assert LiveRef(q, r);
    var i := LiveSpot(q, r);
    ResolveSpot(segs, r, i);
    ToldTwice(Records(segs, r.segment)[i].item);
    hide Spot;
    assert Records(segs, r.segment) == segs[r.segment].value by { LiveReadable(q, r); }
  }

  lemma DequeueOneContents(q: Queue)
    requires Calm(q)
    requires Inv(q)
    ensures var (q', got) := DequeueOne(q);
            && Calm(q')
            && (got.None? ==> Contents(q) == [] && q' == q)
            && (got.Some? ==> Contents(q) == [Told(got.value)] + Contents(q'))
  {
    hide Inv, PullRef, Resolve;
    if q.refs != [] {
      PullRefContents(q);
      var segs := q.store.value.segs;
      assert ResolveAll(segs, q.refs) == [Resolve(segs, q.refs[0])] + ResolveAll(segs, q.refs[1..]);
      Regroup([], [Resolve(segs, q.refs[0])], ResolveAll(segs, q.refs[1..]), ToldAll(q.mem));
    } else if q.mem != [] {
      ToldHead(q.mem);
    }
  }

  lemma {:induction false} PullBatchContents(q: Queue, n: nat, checks: nat, batch: seq<Item>)
    requires Calm(q)
    requires Inv(q)
    ensures var (q', got) := PullBatch(q, n, checks, batch);
            && Calm(q') && Inv(q')
            && ToldAll(batch) + Contents(q) == ToldAll(got) + Contents(q')
            && (got == [] && n > 0 && checks > 0 ==> Contents(q') == [])
            && (checks > n - |batch| ==> |got| >= n || Contents(q') == [])
    decreases checks
  {
    hide Inv, Contents, DequeueOne, ToldAll;
    if |batch| < n && checks > 0 {
      DequeueOneContents(q);
      DequeueOnePath(q);
      PathInv(q, DequeueOne(q).0);
      var (q1, got) := DequeueOne(q);
      if got.Some? {
        var batch1 := batch + [got.value];
        ToldSnoc(batch, got.value);
        Regroup([], ToldAll(batch), [Told(got.value)], Contents(q1));
        PullBatchContents(q1, n, checks - 1, batch1);
        PullBatchHands(q1, n, checks - 1, batch1);
      }
    }
  }

  lemma ToldSnoc(items: seq<Item>, x: Item)
    ensures ToldAll(items + [x]) == ToldAll(items) + [Told(x)]
  {
  }

  lemma {:induction false} CompactSegs(q: Queue)
    requires q.store.Some?
    ensures var q' := Compact(q);
            && q'.store.Some? && SameAir(q.store.value, q'.store.value) && q'.lowest >= q.lowest
            && forall n | n >= q'.lowest :: Records(q'.store.value.segs, n) == Records(q.store.value.segs, n)
    decreases Active(q.store.value.segs) - q.lowest
  {
    hide RemoveLowest;
    if Spent(q) {
      RemoveShape(q);
      RemoveSegs(q);
      var (q1, ok) := RemoveLowest(q);
      if ok {
        CompactSegs(q1);
      }
    }
  }

  lemma RemoveSegs(q: Queue)
    requires q.store.Some?
    ensures var q' := RemoveLowest(q).0;
            && q'.store.Some? && SameAir(q.store.value, q'.store.value)
            && (forall n | n > q.lowest :: Records(q'.store.value.segs, n) == Records(q.store.value.segs, n))
            && (!RemoveLowest(q).1 ==> q'.store.value.segs == q.store.value.segs)
  {
    hide Replay, DiskBytes;
  }

  /** Compaction leaves every queued item readable as it was. */
  lemma CompactContents(q: Queue)
    requires q.store.Some?
    requires Inv(q)
    ensures SameCalm(q, Compact(q)) && Contents(Compact(q)) == Contents(q) && Inv(Compact(q))
  {
    hide Inv, Compact;
    var q' := Compact(q);
    CompactSegs(q);
    CompactFrame(q);
    CompactPath(q);
    PathInv(q, q');
    InvSpots(q);
    forall r | r in q.refs ensures Records(q.store.value.segs, r.segment) <= Records(q'.store.value.segs, r.segment) {
      assert LiveRef(q', r);
      DeletedIsDead(q', r);
    }
    ResolveKept(q.store.value.segs, q'.store.value.segs, q.refs);
  }

  lemma {:induction false} RegisterFrame(q: Queue, now: int)
    ensures var q' := Register(q, now);
            && q' == q.(handRefs := q'.handRefs, handItems := q'.handItems, inflight := q'.inflight, led := q'.led)
            && q'.led == q.led.(peak := q'.led.peak)
    decreases |q.handRefs| + |q.handItems|
  {
    if q.handRefs != [] {
      RegisterFrame(RegisterRef(q, now), now);
    } else if q.handItems != [] {
      RegisterFrame(RegisterItem(q, now), now);
    }
  }

  ghost function Pulled(res: DequeueResult): seq<Item> {
    if res.Batch? then res.items else []
  }

  /** A dequeue, wherever its context ends, hands out the front of the sequence and leaves the rest.
      With looks at the context to spare it hands out all of it up to n items. */
  lemma DequeueContents(q: Queue, n: int, checks: nat, now: int)
    requires Calm(q)
    requires Inv(q)
    ensures var (q', res) := Dequeue(q, n, checks, now);
            && Calm(q') && Contents(q) == ToldAll(Pulled(res)) + Contents(q')
            && (res.Batch? ==> 0 < |res.items| <= n)
            && (n > 0 && checks > n + 1 ==> |Pulled(res)| == n || Contents(q') == [])
  {
    hide Inv, Contents, PullBatch, Compact, Register, ToldAll;
    NoneTold();
    assert [] + Contents(q) == Contents(q);
    if n > 0 && checks > 1 {
      PullBatchContents(q, n, checks - 1, []);
      PullBatchHands(q, n, checks - 1, []);
      var (q1, batch) := PullBatch(q, n, checks - 1, []);
      CompactContents(q1);
      var q2 := Compact(q1);
      RegisterFrame(q2, now);
      ContentsSame(Register(q2, now), q2);
    }
  }

  lemma NoneTold()
    ensures ToldAll([]) == []
  {
  }

  // ---- Settling ----

  /** Same queued items, in a store that has only grown. */
  ghost predicate Settled(q: Queue, q': Queue)
    requires q.store.Some?
  {
    && SameCalm(q, q') && q'.refs == q.refs && q'.mem == q.mem
    && KeepsUnder(q.store.value.segs, q'.store.value.segs, q.refs)
  }

  lemma SettledContents(q: Queue, q': Queue)
    requires q.store.Some? && Settled(q, q')
    requires Inv(q)
    ensures Contents(q') == Contents(q)
  {
    hide Inv;
    InvSpots(q);
    ResolveKept(q.store.value.segs, q'.store.value.segs, q.refs);
  }

  lemma AckOneSettled(q: Queue, id: Id)
    requires q.store.Some?
    ensures Settled(q, AckOne(q, id).0)
  {
    hide Append, Release;
    AppendAir(q.store.value, AckRec(id));
    AppendKeepsRecords(q.store.value, AckRec(id), q.refs);
    if id in q.inflight && q.inflight[id].RefEntry? {
      ReleaseFrame(q.(inflight := q.inflight - {id}), q.inflight[id].ref);
    }
  }

  lemma {:induction false} AckLoopContents(q: Queue, ids: seq<Id>)
    requires q.store.Some?
    requires Inv(q)
    ensures SameCalm(q, AckLoop(q, ids).0) && Contents(AckLoop(q, ids).0) == Contents(q) && Inv(AckLoop(q, ids).0)
    decreases |ids|
  {
    hide Inv, Contents, AckOne;
    if ids != [] {
      AckOneSettled(q, ids[0]);
      var (q1, ok) := AckOne(q, ids[0]);
      SettledContents(q, q1);
      AckOnePath(q, ids[0]);
      PathInv(q, q1);
      if ok {
        AckLoopContents(q1, ids[1..]);
      }
    }
  }

  lemma SettleSettled(q: Queue, id: Id)
    requires q.store.Some?
    ensures Settled(q, Settle(q, id))
  {
    hide Append;
    AppendAir(q.store.value, AckRec(id));
    AppendKeepsRecords(q.store.value, AckRec(id), q.refs);
  }

  lemma DropOneSettled(q: Queue, id: Id)
    requires q.store.Some?
    ensures Settled(q, DropOne(q, id))
  {
    hide Settle, Release;
    if id in q.inflight && q.inflight[id].RefEntry? {
      var q0 := q.(inflight := q.inflight - {id});
      ReleaseFrame(q0, q.inflight[id].ref);
      SettleSettled(Release(q0, q.inflight[id].ref), id);
    }
  }

  lemma {:induction false} DropAllContents(q: Queue, ids: seq<Id>)
    requires q.store.Some?
    requires Inv(q)
    ensures SameCalm(q, DropAll(q, ids)) && Contents(DropAll(q, ids)) == Contents(q) && Inv(DropAll(q, ids))
    decreases |ids|
  {
    hide Inv, Contents, DropOne;
    if ids != [] {
      DropOneSettled(q, ids[0]);
      var q1 := DropOne(q, ids[0]);
      SettledContents(q, q1);
      DropOnePath(q, ids[0]);
      PathInv(q, q1);
      DropAllContents(q1, ids[1..]);
    }
  }

  // ---- Whole runs ----

  /** Runs without hand-backs in which every arrival is accepted or left waiting. */
  ghost predicate Orderly(q: Queue, op: Op) {
    match op
    case DoEnqueue(item) =>
      && item.id !in q.led.seen && Fits(item)
      && (Enqueue(q, item).1.Accepted? || Enqueue(q, item).1.Waits?)
    case DoDequeue(_, _, _) => true
    case DoAck(_) => true
    case DoDrop(_) => true
    case _ => false
  }

  ghost function Arrives(q: Queue, op: Op): seq<Item> {
    if op.DoEnqueue? && Enqueue(q, op.item).1.Accepted? then [op.item] else []
  }

  ghost function HandsOut(q: Queue, op: Op): seq<Item> {
    if op.DoDequeue? then Pulled(Dequeue(q, op.n, op.checks, op.now).1) else []
  }

  ghost predicate OrderlyRun(q: Queue, ops: seq<Op>, q2: Queue, arrived: seq<Item>, handed: seq<Item>)
    decreases |ops|
  {
    if ops == [] then q2 == q && arrived == [] && handed == []
    else
      var op := ops[0];
      && Orderly(q, op)
      && Arrives(q, op) <= arrived && HandsOut(q, op) <= handed
      && OrderlyRun(Do(q, op), ops[1..], q2, arrived[|Arrives(q, op)|..], handed[|HandsOut(q, op)|..])
  }

  lemma OrderlyAllowed(q: Queue, op: Op)
    requires Orderly(q, op)
    ensures Allowed(q, op)
  {
    hide Enqueue, Recover;
  }

  lemma OrderlyStep(q: Queue, op: Op)
    requires Orderly(q, op) && Allowed(q, op) && Calm(q)
    requires Good(q)
    ensures Good(Do(q, op)) && Calm(Do(q, op))
    ensures Contents(q) + ToldAll(Arrives(q, op)) == ToldAll(HandsOut(q, op)) + Contents(Do(q, op))
  {
    hide Inv, Booted, Contents, Enqueue, Dequeue, Ack, Drop, Recover, Start, Nack, Close, ToldAll;
    DoKeeps(q, op);
    NoneTold();
    assert Contents(q) + [] == Contents(q) == [] + Contents(q);
    match op {
      case DoEnqueue(item) =>
        EnqueueContents(q, item);
        ToldSnoc([], item);
        assert [] + [item] == [item] && [] + [Told(item)] == [Told(item)];
        assert [] + Contents(Enqueue(q, item).0) == Contents(Enqueue(q, item).0);
      case DoDequeue(n, checks, now) =>
        DequeueContents(q, n, checks, now);
      case DoAck(ids) =>
        AckContents(q, ids);
        assert [] + Contents(Ack(q, ids).0) == Contents(Ack(q, ids).0);
      case DoDrop(ids) =>
        DropContents(q, ids);
        assert [] + Contents(Drop(q, ids).0) == Contents(Drop(q, ids).0);
    }
  }

  lemma AckContents(q: Queue, ids: seq<Id>)
    requires q.store.Some?
    requires Inv(q)
    ensures SameCalm(q, Ack(q, ids).0) && Contents(Ack(q, ids).0) == Contents(q)
  {
    hide Inv, Contents, AckLoop, Compact;
    AckLoopContents(q, ids);
    CompactContents(AckLoop(q, ids).0);
  }

  lemma DropContents(q: Queue, ids: seq<Id>)
    requires q.store.Some?
    requires Inv(q)
    ensures SameCalm(q, Drop(q, ids).0) && Contents(Drop(q, ids).0) == Contents(q)
  {
    hide Inv, Contents, DropAll, Compact;
    DropAllContents(q, ids);
    CompactContents(DropAll(q, ids));
  }

  lemma ToldSplit(items: seq<Item>, k: nat)
    requires k <= |items|
    ensures ToldAll(items) == ToldAll(items[..k]) + ToldAll(items[k..])
  {
  }

  /** Over any orderly run, the items that were queued and those that arrived are, in order, the
      items handed out and those still queued: spilling and compaction are invisible. */
  lemma {:induction false} FifoLaw(q: Queue, ops: seq<Op>, q2: Queue, arrived: seq<Item>, handed: seq<Item>)
    requires OrderlyRun(q, ops, q2, arrived, handed) && Calm(q)
    requires Good(q)
    ensures Good(q2) && Calm(q2)
    ensures Contents(q) + ToldAll(arrived) == ToldAll(handed) + Contents(q2)
    decreases |ops|
  {
    hide Good, Contents, Orderly, ToldAll, Arrives, HandsOut, Do, Allowed;
    if ops == [] {
      NoneTold();
      assert Contents(q) + [] == [] + Contents(q);
    } else {
      var op := ops[0];
      var a, h := Arrives(q, op), HandsOut(q, op);
      OrderlyAllowed(q, op);
      var q1 := Do(q, op);
      OrderlyStep(q, op);
      var late, rest := arrived[|a|..], handed[|h|..];
      FifoLaw(q1, ops[1..], q2, late, rest);
      assert arrived[..|a|] == a && handed[..|h|] == h;
      calc {
        Contents(q) + ToldAll(arrived);
        { ToldSplit(arrived, |a|); Assoc(Contents(q), ToldAll(a), ToldAll(late)); }
        (ToldAll(h) + Contents(q1)) + ToldAll(late);
        { Assoc(ToldAll(h), Contents(q1), ToldAll(late)); }
        ToldAll(h) + (ToldAll(rest) + Contents(q2));
        { Assoc(ToldAll(h), ToldAll(rest), Contents(q2)); ToldSplit(handed, |h|); }
        ToldAll(handed) + Contents(q2);
      }
    }
  }
}
