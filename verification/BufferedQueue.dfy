/** bufferedQueue: the queue updated in place over a DiskStore. Each method is one locked section of
    the source and is proved to do what the function of the same name in QueueModel does. */
module BufferedQueues {
  import opened Bytes
  import opened WalCodec
  import opened Wal
  import opened SpillDisk
  import opened DiskStores
  import opened QueueModel
  import M = QueueModel

  class BufferedQueue {
    const cfg: Config
    const disk: DiskStore?
    var memCh: seq<Item>
    var memBytes: int
    var memCount: int
    var diskRefs: seq<DiskRef>
    var diskCount: int
    var refsPerSegment: map<nat, int>
    var lowestSegment: nat
    var refUnderflows: nat
    var inflight: map<Id, Entry>
    var dropped: nat
    var unrecorded: nat
    var closed: bool
    // What a locked method holds between taking it and putting it away.
    var handRefs: seq<DiskRef>
    var handItems: seq<Item>
    ghost var led: Ledger

    ghost predicate Valid()
      reads this, disk
    {
      && (disk != null ==> disk.Valid())
      && (disk == null ==>
            diskRefs == [] && handRefs == [] && forall id | id in inflight :: inflight[id].MemEntry?)
      && memCount == |memCh| && diskCount == |diskRefs|
    }

    /** The queue as a value. */
    ghost function Abs(): Queue
      requires Valid()
      reads this, disk
    {
      Queue(cfg, memCh, memBytes, memCount, diskRefs, diskCount, refsPerSegment, lowestSegment, refUnderflows,
            inflight, handRefs, handItems, if disk == null then None else Some(disk.View()),
            dropped, unrecorded, closed, led)
    }

    /** New: without a spill directory, or over one as an earlier life left it. */
    constructor (cfg: Config, found: Option<seq<File>>, ghost segs: Segments, io: nat -> IO, ghost past: Ledger)
      requires cfg.maxMemory > 0 && cfg.maxDisk >= 0
      requires found.Some? ==> Holds(found.value, segs) && (segs != [] ==> Live(segs))
      ensures Valid()
      ensures found.None? ==> Abs() == EmptyQueue(cfg, None, 0, NO_HISTORY.(seen := past.seen))
      ensures found.Some? ==>
                exists order :: OldestFirst(order)
                                && Enumerates(order, Recover(Reopened(segs, DiskBudget(cfg), io).segs).pending)
                                && Abs() == Start(cfg, segs, io, order, past)
    {
      hide SegmentBytes, SegmentSize, DiskBytes, Replay, Recover, LowestFile;
      this.cfg := cfg;
      memCh, memBytes, memCount := [], 0, 0;
      diskRefs, diskCount, refsPerSegment, refUnderflows := [], 0, map[], 0;
      inflight, handRefs, handItems := map[], [], [];
      dropped, unrecorded, closed := 0, 0, false;
      var recovered: seq<DiskRef> := [];
      if found.Some? {
        var store := new DiskStore(found.value, segs, DiskBudget(cfg), io);
        recovered := store.Recover();
        var low := store.SeedCursor(recovered);
        lowestSegment := low;
        disk := store;
        led := Boot(cfg, segs, io, past).led;
      } else {
        disk := null;
        lowestSegment := 0;
        led := NO_HISTORY.(seen := past.seen);
      }
      new;
      if disk != null {
        assert Abs() == Boot(cfg, segs, io, past);
        KeepAndCut(recovered);
      }
    }

    /** Keeps the oldest references up to the cap; counts and acks the rest. */
    method KeepAndCut(recovered: seq<DiskRef>)
      requires Valid() && disk != null
      modifies this, disk
      ensures Valid()
      ensures var cap := Slots(DiskBudget(cfg)); var keep := if |recovered| > cap then cap else |recovered|;
              Abs() == CutOffAll(AdoptAll(old(Abs()), recovered[..keep]), recovered[keep..])
    {
      hide Adopt, CutOff, DiskStore.Valid, Slots;
      var limit := Slots(DiskBudget(cfg));
      var keep := if |recovered| > limit then limit else |recovered|;
      var kept, cut := recovered[..keep], recovered[keep..];
      var i := 0;
      while i < |kept|
        invariant 0 <= i <= |kept| && Valid() && AdoptAll(Abs(), kept[i..]) == AdoptAll(old(Abs()), kept)
      {
        assert kept[i..][1..] == kept[i + 1..];
        Keep(kept[i]);
        i := i + 1;
      }
      assert kept[i..] == [];
      i := 0;
      ghost var q := Abs();
      while i < |cut|
        invariant 0 <= i <= |cut| && Valid() && CutOffAll(Abs(), cut[i..]) == CutOffAll(q, cut)
      {
        assert cut[i..][1..] == cut[i + 1..];
        Cut(cut[i]);
        i := i + 1;
      }
      assert cut[i..] == [];
    }

    method Keep(ref: DiskRef)
      requires Valid() && disk != null
      modifies this
      ensures Valid()
      ensures Abs() == Adopt(old(Abs()), ref)
    {
      hide DiskStore.Valid;
      AddDiskRef(ref);
      led := led.(stale := led.stale - {ref.id}, accepted := led.accepted + {ref.id},
                  start := led.start[ref.id := ref.attempts], charges := led.charges[ref.id := 0]);
    }

    method Cut(ref: DiskRef)
      requires Valid() && disk != null
      modifies this, disk
      ensures Valid()
      ensures Abs() == CutOff(old(Abs()), ref)
    {
      hide DiskStore.Valid, Settle;
      led := led.(accepted := led.accepted + {ref.id});
      SettleDroppedRef(ref.id);
      DropItem(ref.id);
    }

    // ---- Memory tier ----

    predicate CanAcceptInMemory(size: int)
      reads this
    {
      memBytes + size <= cfg.maxMemory && |memCh| < Slots(cfg.maxMemory)
    }

    method PutMemory(item: Item) returns (ok: bool)
      requires Valid()
      modifies this
      ensures Valid()
      ensures ok == (|old(memCh)| < Slots(cfg.maxMemory))
      ensures Abs() == if ok then Put(old(Abs()), item) else old(Abs())
    {
      if |memCh| >= Slots(cfg.maxMemory) {
        return false;
      }
      memCh := memCh + [item];
      memBytes := memBytes + ItemSize(item);
      memCount := memCount + 1;
      return true;
    }

    method TakeMemory() returns (item: Item)
      requires Valid() && memCh != []
      modifies this
      ensures Valid() && item == old(memCh[0])
      ensures Abs() == Take(old(Abs()))
    {
      item := memCh[0];
      memCh := memCh[1..];
      memBytes := memBytes - ItemSize(item);
      memCount := memCount - 1;
    }

    /** Takes everything out of memory, oldest first. */
    method DrainMemory() returns (rest: seq<Item>)
      requires Valid()
      modifies this
      ensures Valid() && rest == old(memCh)
      ensures Abs() == old(Abs()).(mem := [], memBytes := old(memBytes) - SumSizes(rest), memCount := 0)
    {
      hide SumSizes, DiskStore.Valid, Take;
      NoSizes();
      rest := [];
      ghost var q := Abs();
      while memCh != []
        invariant Valid() && rest + memCh == old(memCh)
        invariant Abs() == Keeping(q, rest, memCh)
        decreases |memCh|
      {
        KeepingLess(q, rest, memCh);
        var existing := TakeMemory();
        rest := rest + [existing];
      }
    }

    /** Puts items back last first; every one finds a slot. */
    method PutReversed(rest: seq<Item>) returns (ok: bool)
      requires Valid() && |memCh| + |rest| <= Slots(cfg.maxMemory)
      modifies this
      ensures Valid() && ok
      ensures Abs() == old(Abs()).(mem := old(memCh) + Reverse(rest), memCount := |memCh|,
                                   memBytes := old(memBytes) + SumSizes(rest))
      ensures |memCh| == |old(memCh)| + |rest|
    {
      hide SumSizes, Slots, DiskStore.Valid, Reverse;
      ok := true;
      NoReverse();
      NoSizes();
      var i := |rest|;
      assert rest[i..] == [] && rest[..i] == rest && memCh + [] == memCh;
      ghost var q0 := Abs();
      ghost var put := 0;
      while i > 0
        invariant 0 <= i <= |rest| && ok && Valid()
        invariant put + SumSizes(rest[..i]) == SumSizes(rest)
        invariant memCh == q0.mem + Reverse(rest[i..]) && |memCh| == |q0.mem| + |rest| - i
        invariant Abs() == q0.(mem := memCh, memCount := |memCh|, memBytes := q0.memBytes + put)
      {
        i := i - 1;
        ReverseSnoc(rest, i);
        SizesSnoc(rest[..i], rest[i]);
        assert rest[..i + 1] == rest[..i] + [rest[i]];
        Assoc(q0.mem, Reverse(rest[i + 1..]), [rest[i]]);
        put := put + ItemSize(rest[i]);
        ok := PutMemory(rest[i]);
      }
      assert rest[0..] == rest && rest[..0] == [];
    }

    /** enqueueFrontUnlocked: with room for one more it cannot fail. */
    method EnqueueFront(item: Item) returns (ok: bool)
      requires Valid() && |memCh| < Slots(cfg.maxMemory)
      modifies this
      ensures Valid() && ok
      ensures Abs() == PutFront(old(Abs()), item)
    {
      hide SumSizes, Slots, DiskStore.Valid, Reverse;
      var rest := DrainMemory();
      ok := PutMemory(item);
      ok := PutReversed(rest);
    }

    // ---- Segment claims ----

    method AddDiskRef(ref: DiskRef)
      requires Valid() && disk != null
      modifies this
      ensures Valid()
      ensures Abs() == AddRef(old(Abs()), ref)
    {
      hide DiskStore.Valid;
      diskRefs := diskRefs + [ref];
      diskCount := diskCount + 1;
      var count := if ref.segment in refsPerSegment then refsPerSegment[ref.segment] else 0;
      refsPerSegment := refsPerSegment[ref.segment := count + 1];
      led := led.(loc := led.loc[ref.id := Loc(ref.segment, ref.offset)]);
    }

    method ReleaseDiskRef(ref: DiskRef)
      requires Valid()
      modifies this
      ensures Valid()
      ensures Abs() == Release(old(Abs()), ref)
    {
      hide DiskStore.Valid;
      var segment := ref.segment;
      led := led.(loc := led.loc - {ref.id});
      if segment !in refsPerSegment || refsPerSegment[segment] <= 0 {
        refUnderflows := refUnderflows + 1;
        refsPerSegment := refsPerSegment - {segment};
        return;
      }
      var count := refsPerSegment[segment] - 1;
      if count == 0 {
        refsPerSegment := refsPerSegment - {segment};
        return;
      }
      refsPerSegment := refsPerSegment[segment := count];
    }

    method SettleDroppedRef(id: Id)
      requires Valid()
      modifies this, disk
      ensures Valid()
      ensures Abs() == Settle(old(Abs()), id)
    {
      if disk == null {
        return;
      }
      var res := disk.AppendAck(id);
      if res.Written? {
        led := led.(durable := led.durable + {id}, stale := led.stale - {id});
      } else {
        led := led.(stale := led.stale + {id});
      }
    }

    method DropItem(id: Id)
      requires Valid()
      modifies this
      ensures Valid()
      ensures Abs() == CountDrop(old(Abs()), id)
    {
      dropped := dropped + 1;
      led := led.(dropped := led.dropped + {id});
    }

    predicate DiskRefsFull()
      reads this
    {
      |diskRefs| >= Slots(DiskBudget(cfg))
    }

    /** Writes item to the WAL and keeps only a reference to it. */
    method Spill(item: Item) returns (res: AppendResult)
      requires Valid() && disk != null
      modifies this, disk
      ensures Valid()
      ensures (Abs(), res) == SpillItem(old(Abs()), item)
    {
      res := disk.AppendItem(item);
      if res.Written? {
        AddDiskRef(DiskRef(item.id, res.segment, res.offset, item.enqueuedAt, item.attempts));
      }
    }

    // ---- Enqueue ----

    method EvictOldest() returns (ok: bool)
      requires Valid()
      modifies this, disk
      ensures Valid()
      ensures (Abs(), ok) == Evict(old(Abs()))
    {
      hide AppendItem;
      if memCh == [] {
        return true;
      }
      var oldest := TakeMemory();
      if disk == null {
        DropItem(oldest.id);
        return true;
      }
      if DiskRefsFull() {
        PutBack(oldest);
        return false;
      }
      var res := Spill(oldest);
      if !res.Written? {
        PutBack(oldest);
        return false;
      }
      return true;
    }

    /** The unguarded send that puts an item just taken back at the end of memory. */
    method PutBack(item: Item)
      requires Valid()
      modifies this
      ensures Valid()
      ensures Abs() == Put(old(Abs()), item)
    {
      memCh := memCh + [item];
      memBytes := memBytes + ItemSize(item);
      memCount := memCount + 1;
    }

    method MakeMemoryRoom(need: int) returns (ok: bool)
      requires Valid()
      modifies this, disk
      ensures Valid()
      ensures (Abs(), ok) == MakeRoom(old(Abs()), need)
    {
      hide Evict;
      ghost var q0 := Abs();
      while !CanAcceptInMemory(need) && (memCount > 0 || |memCh| > 0)
        invariant Valid() && MakeRoom(Abs(), need) == MakeRoom(q0, need)
        decreases |memCh|
      {
        assert !CanAccept(Abs(), need);
        EvictShrinksMemory(Abs());
        var done := EvictOldest();
        if !done {
          return false;
        }
      }
      return true;
    }

    method DropOldest()
      requires Valid()
      modifies this, disk
      ensures Valid()
      ensures Abs() == M.DropOldest(old(Abs()))
    {
      hide Settle, Release, DiskStore.Valid;
      if memCh != [] {
        var oldest := TakeMemory();
        DropItem(oldest.id);
      } else if diskRefs != [] {
        var ref := diskRefs[0];
        diskRefs := diskRefs[1..];
        diskCount := diskCount - 1;
        ReleaseDiskRef(ref);
        SettleDroppedRef(ref.id);
        DropItem(ref.id);
      }
    }

    /** One pass of Enqueue. An item that comes without an id or a clock is given them. */
    method Enqueue(item0: Item, newId: Id, now: int) returns (res: EnqueueResult, item: Item)
      requires Valid()
      modifies this, disk
      ensures Valid()
      ensures item == Stamped(item0, newId, now)
      ensures (Abs(), res) == M.Enqueue(old(Abs()), item)
    {
      hide MakeRoom, M.DropOldest, SpillItem;
      item := Stamped(item0, newId, now);
      var size := ItemSize(item);
      if closed {
        return QueueClosed, item;
      }
      if CanAcceptInMemory(size) {
        AcceptItem(item);
        return Accepted, item;
      }
      if disk != null {
        var ok := MakeMemoryRoom(size);
        if !ok {
          return Failed, item;
        }
        if CanAcceptInMemory(size) {
          AcceptItem(item);
          return Accepted, item;
        }
        if DiskRefsFull() {
          return Waits, item;
        }
        var spilled := Spill(item);
        match spilled {
          case Written(_, _) =>
            AdmitItem(item);
            return Accepted, item;
          case Full => return Waits, item;
          case _ => return Failed, item;
        }
      }
      DropOldest();
      if CanAcceptInMemory(size) {
        AcceptItem(item);
        return Accepted, item;
      }
      return Retries, item;
    }

    method AcceptItem(item: Item)
      requires Valid() && |memCh| < Slots(cfg.maxMemory)
      modifies this
      ensures Valid()
      ensures Abs() == Accept(old(Abs()), item)
    {
      var ok := PutMemory(item);
      AdmitItem(item);
    }

    ghost method AdmitItem(item: Item)
      requires Valid()
      modifies this
      ensures Valid()
      ensures Abs() == Admit(old(Abs()), item)
    {
      led := led.(seen := led.seen + {item.id}, accepted := led.accepted + {item.id},
                  start := led.start[item.id := item.attempts], charges := led.charges[item.id := 0]);
    }

    // ---- Compaction ----

    method RemoveLowest() returns (ok: bool)
      requires Valid() && disk != null
      modifies this, disk
      ensures Valid()
      ensures (Abs(), ok) == M.RemoveLowest(old(Abs()))
    {
      hide Remove, Replay, DiskStore.Valid;
      ok := disk.RemoveSegment(lowestSegment);
      if !ok {
        return;
      }
      refsPerSegment := refsPerSegment - {lowestSegment};
      lowestSegment := lowestSegment + 1;
      led := led.(stale := led.stale * Replay(disk.View().segs).pending.Keys);
    }

    method Compact()
      requires Valid()
      modifies this, disk
      ensures Valid()
      ensures Abs() == M.Compact(old(Abs()))
    {
      hide M.RemoveLowest, DiskStore.Valid;
      if disk == null {
        return;
      }
      var active := disk.ActiveSegment();
      while lowestSegment < active && (lowestSegment !in refsPerSegment || refsPerSegment[lowestSegment] == 0)
        invariant Valid() && M.Compact(Abs()) == M.Compact(old(Abs()))
        invariant active == Active(disk.View().segs)
        decreases active - lowestSegment
      {
        RemoveKeepsActive(Abs());
        var ok := RemoveLowest();
        if !ok {
          return;
        }
      }
    }

    // ---- Dequeue ----

    /** readRefUnlocked on the head reference, with what dequeueOneUnlocked does around it. */
    method PullRef() returns (pull: Pull)
      requires Valid() && diskRefs != []
      modifies this, disk
      ensures Valid()
      ensures (Abs(), pull) == M.PullRef(old(Abs()))
    {
      hide ReadItem, Settle, Release, DiskStore.Valid;
      var ref := diskRefs[0];
      var res := disk.ReadItem(ref.segment, ref.offset);
      if res.ReadClosed? {
        return Stopped;
      }
      diskRefs := diskRefs[1..];
      diskCount := diskCount - 1;
      if res.Read? && res.item.id == ref.id {
        handRefs := handRefs + [ref];
        return Got(res.item.(attempts := ref.attempts));
      }
      ReleaseDiskRef(ref);
      SettleDroppedRef(ref.id);
      DropItem(ref.id);
      return Skipped;
    }

    method DequeueOne() returns (got: Option<Item>)
      requires Valid()
      modifies this, disk
      ensures Valid()
      ensures (Abs(), got) == M.DequeueOne(old(Abs()))
    {
      hide M.PullRef, DiskStore.Valid;
      while diskRefs != []
        invariant Valid() && M.DequeueOne(Abs()) == M.DequeueOne(old(Abs()))
        decreases |diskRefs|
      {
        PullRefShrinks(Abs());
        var pull := PullRef();
        match pull {
          case Got(item) => return Some(item);
          case Stopped => return None;
          case Skipped =>
        }
      }
      if memCh != [] {
        var item := TakeMemory();
        handItems := handItems + [item];
        return Some(item);
      }
      return None;
    }

    /** One pass of DequeueBatch. */
    method DequeueBatch(n: int, checks: nat, now: int) returns (res: DequeueResult)
      requires Valid()
      modifies this, disk
      ensures Valid()
      ensures (Abs(), res) == Dequeue(old(Abs()), n, checks, now)
    {
      hide M.DequeueOne, M.Compact, Register, DiskStore.Valid;
      if n <= 0 {
        return BadSize;
      }
      if checks == 0 {
        return Cancelled;
      }
      if closed && memCount == 0 && |memCh| == 0 && (diskCount == 0 || (disk != null && disk.closed)) {
        return Drained;
      }
      if checks == 1 {
        return Cancelled;
      }
      var batch := PullBatch(n, checks - 1);
      Compact();
      if batch == [] {
        return Parked;
      }
      RegisterHand(now);
      return Batch(batch);
    }

    method PullBatch(n: nat, checks: nat) returns (batch: seq<Item>)
      requires Valid()
      modifies this, disk
      ensures Valid()
      ensures (Abs(), batch) == M.PullBatch(old(Abs()), n, checks, [])
    {
      hide M.DequeueOne, DiskStore.Valid;
      batch := [];
      var left := checks;
      while |batch| < n && left > 0
        invariant Valid()
        invariant M.PullBatch(Abs(), n, left, batch) == M.PullBatch(old(Abs()), n, checks, [])
        decreases left
      {
        var got := DequeueOne();
        if got.None? {
          return;
        }
        batch := batch + [got.value];
        left := left - 1;
      }
    }

    method RegisterOneRef(now: int)
      requires Valid() && handRefs != []
      modifies this
      ensures Valid()
      ensures Abs() == RegisterRef(old(Abs()), now)
    {
      hide DiskStore.Valid;
      inflight := inflight[handRefs[0].id := RefEntry(handRefs[0], now)];
      handRefs := handRefs[1..];
      led := NotePeak(Abs()).led;
    }

    method RegisterOneItem(now: int)
      requires Valid() && handItems != []
      modifies this
      ensures Valid()
      ensures Abs() == RegisterItem(old(Abs()), now)
    {
      hide DiskStore.Valid;
      inflight := inflight[handItems[0].id := MemEntry(handItems[0], now)];
      handItems := handItems[1..];
      led := NotePeak(Abs()).led;
    }

    /** Puts what the pull loop took into the inflight map, references without their payloads. */
    method RegisterHand(now: int)
      requires Valid()
      modifies this
      ensures Valid()
      ensures Abs() == Register(old(Abs()), now)
    {
      hide DiskStore.Valid, NotePeak;
      while handRefs != [] || handItems != []
        invariant Valid() && Register(Abs(), now) == Register(old(Abs()), now)
        decreases |handRefs| + |handItems|
      {
        if handRefs != [] {
          PeakFrame(Abs(), now);
          RegisterOneRef(now);
        } else {
          PeakFrame(Abs(), now);
          RegisterOneItem(now);
        }
      }
    }

    // ---- Ack, nack, drop ----

    /** One turn of Ack's loop: the entry stays when its ack could not be written. */
    method AckId(id: Id) returns (ok: bool)
      requires Valid()
      modifies this, disk
      ensures Valid()
      ensures (Abs(), ok) == AckOne(old(Abs()), id)
    {
      hide AppendAck, Release, DiskStore.Valid;
      if id !in inflight {
        return true;
      }
      var entry := inflight[id];
      if entry.RefEntry? && disk != null {
        var res := disk.AppendAck(id);
        if !res.Written? {
          return false;
        }
        inflight := inflight - {id};
        ReleaseStore(old(Abs()).(inflight := inflight), disk.View(), entry.ref);
        ReleaseDiskRef(entry.ref);
        led := led.(acked := led.acked + {id}, durable := led.durable + {id});
      } else {
        inflight := inflight - {id};
        led := led.(acked := led.acked + {id});
      }
      return true;
    }

    method Ack(ids: seq<Id>) returns (res: Outcome)
      requires Valid()
      modifies this, disk
      ensures Valid()
      ensures (Abs(), res) == M.Ack(old(Abs()), ids)
    {
      hide AckOne, M.Compact, DiskStore.Valid;
      if closed {
        return Refused;
      }
      res := Done;
      var i := 0;
      while i < |ids|
        invariant 0 <= i <= |ids| && Valid()
        invariant AckLoop(Abs(), ids[i..]) == AckLoop(old(Abs()), ids)
      {
        assert ids[i..][1..] == ids[i + 1..];
        var ok := AckId(ids[i]);
        if !ok {
          res := Error;
          break;
        }
        i := i + 1;
      }
      assert res.Done? ==> ids[i..] == [];
      Compact();
    }

    method RetireInflight(id: Id, entry: Entry, delivered: bool)
      requires Valid()
      modifies this, disk
      ensures Valid()
      ensures Abs() == Retire(old(Abs()), id, entry, delivered)
    {
      hide Settle, Release, DiskStore.Valid;
      if entry.RefEntry? {
        ghost var before := Abs();
        ReleaseDiskRef(entry.ref);
        SettleDroppedRef(id);
        RetireOnly(before, entry.ref, id);
      }
      if delivered {
        unrecorded := unrecorded + 1;
        led := led.(unrecorded := led.unrecorded + {id});
      } else {
        DropItem(id);
      }
    }

    /** One turn of nack's first loop. */
    method TakeBackId(id: Id, kind: NackKind)
      requires Valid()
      modifies this, disk
      ensures Valid()
      ensures Abs() == TakeBack(old(Abs()), id, kind)
    {
      hide Retire, DiskStore.Valid;
      if id !in inflight {
        return;
      }
      var charge := kind != NackUntried && kind != NackSessionEnd;
      var entry := TakeFromFlight(id, charge);
      var attempts := AttemptsOf(entry) + (if charge then 1 else 0);
      if attempts > MAX_ATTEMPTS {
        RetireInflight(id, entry, kind == NackDelivered);
      } else {
        KeepInHand(entry, attempts);
      }
    }

    method TakeFromFlight(id: Id, charge: bool) returns (entry: Entry)
      requires Valid() && id in inflight
      modifies this
      ensures Valid() && entry == old(inflight[id]) && (disk == null ==> entry.MemEntry?)
      ensures Abs() == old(Abs()).(inflight := old(inflight) - {id}, led := led)
      ensures led == if charge then old(led).(charges := old(led).charges[id := Charges(old(Abs()), id) + 1])
                     else old(led)
    {
      hide DiskStore.Valid;
      entry := inflight[id];
      inflight := inflight - {id};
      if charge {
        led := led.(charges := led.charges[id := Charges(Abs(), id) + 1]);
      }
    }

    method KeepInHand(entry: Entry, attempts: int)
      requires Valid() && (disk == null ==> entry.MemEntry?)
      modifies this
      ensures Valid()
      ensures Abs() == match entry
              case RefEntry(ref, _) => old(Abs()).(handRefs := old(handRefs) + [ref.(attempts := attempts)])
              case MemEntry(item, _) => old(Abs()).(handItems := old(handItems) + [item.(attempts := attempts)])
    {
      hide DiskStore.Valid;
      match entry {
        case RefEntry(ref, _) => handRefs := handRefs + [ref.(attempts := attempts)];
        case MemEntry(item, _) => handItems := handItems + [item.(attempts := attempts)];
      }
    }

    method TakeBackIds(ids: seq<Id>, kind: NackKind)
      requires Valid()
      modifies this, disk
      ensures Valid()
      ensures Abs() == TakeBackAll(old(Abs()), ids, kind)
    {
      hide TakeBack, DiskStore.Valid;
      var i := 0;
      while i < |ids|
        invariant 0 <= i <= |ids| && Valid()
        invariant TakeBackAll(Abs(), ids[i..], kind) == TakeBackAll(old(Abs()), ids, kind)
      {
        assert ids[i..][1..] == ids[i + 1..];
        TakeBackId(ids[i], kind);
        i := i + 1;
      }
      assert ids[i..] == [];
    }

    /** Prepends the handed-back references, last first, so they keep their order. */
    method ReturnHandRefs()
      requires Valid()
      modifies this
      ensures Valid()
      ensures Abs() == ReturnRefs(old(Abs()))
    {
      hide DiskStore.Valid;
      var i := |handRefs| - 1;
      while i >= 0
        invariant Valid() && i == |handRefs| - 1
        invariant ReturnRefs(Abs()) == ReturnRefs(old(Abs()))
        decreases i
      {
        diskRefs := [handRefs[i]] + diskRefs;
        diskCount := diskCount + 1;
        handRefs := handRefs[..i];
        i := i - 1;
      }
    }

    method ReturnHandItem() returns (ok: bool)
      requires Valid() && handItems != []
      modifies this, disk
      ensures Valid()
      ensures (Abs(), ok) == ReturnItem(old(Abs()))
    {
      hide SpillItem, DiskStore.Valid, Slots;
      var n := |handItems| - 1;
      var item := handItems[n];
      handItems := handItems[..n];
      if CanAcceptInMemory(ItemSize(item)) {
        ok := EnqueueFront(item);
        return;
      }
      ok := true;
      if disk != null {
        if DiskRefsFull() {
          ok := false;
        } else {
          var res := Spill(item);
          if res.Written? {
            return;
          }
          ok := false;
        }
      }
      DropItem(item.id);
    }

    method Nack(ids: seq<Id>, kind: NackKind) returns (res: Outcome)
      requires Valid()
      modifies this, disk
      ensures Valid()
      ensures (Abs(), res) == M.Nack(old(Abs()), ids, kind)
    {
      hide TakeBackAll, ReturnRefs, ReturnItem, M.Compact, DiskStore.Valid;
      if closed {
        return Refused;
      }
      TakeBackIds(ids, kind);
      ReturnHandRefs();
      ghost var q := Abs();
      var ok := true;
      while handItems != []
        invariant Valid() && ReturnItems(Abs(), ok) == ReturnItems(q, true)
        decreases |handItems|
      {
        ReturnItemShrinks(Abs());
        var put := ReturnHandItem();
        ok := ok && put;
      }
      Compact();
      return if ok then Done else Error;
    }

    method DropId(id: Id)
      requires Valid()
      modifies this, disk
      ensures Valid()
      ensures Abs() == DropOne(old(Abs()), id)
    {
      hide Retire, DiskStore.Valid;
      if id in inflight {
        var entry := inflight[id];
        inflight := inflight - {id};
        RetireInflight(id, entry, false);
      }
    }

    method Drop(ids: seq<Id>) returns (res: Outcome)
      requires Valid()
      modifies this, disk
      ensures Valid()
      ensures (Abs(), res) == M.Drop(old(Abs()), ids)
    {
      hide DropOne, M.Compact, DiskStore.Valid;
      if closed {
        return Refused;
      }
      var i := 0;
      while i < |ids|
        invariant 0 <= i <= |ids| && Valid()
        invariant DropAll(Abs(), ids[i..]) == DropAll(old(Abs()), ids)
      {
        assert ids[i..][1..] == ids[i + 1..];
        DropId(ids[i]);
        i := i + 1;
      }
      assert ids[i..] == [];
      Compact();
      return Done;
    }

    /** sweepInflight: hands back every item in flight since before the deadline, or all of them
        when age is not positive, in an order the map decides. */
    method SweepInflight(age: int, now: int, kind: NackKind) returns (res: Outcome, ids: seq<Id>)
      requires Valid()
      modifies this, disk
      ensures Valid()
      ensures old(closed) ==> ids == [] && Abs() == old(Abs()) && res == Refused
      ensures !old(closed) ==> forall id :: id in ids <==> StaleInFlight(old(Abs()), id, age, now)
      ensures !old(closed) && ids == [] ==> Abs() == old(Abs()) && res == Done
      ensures !old(closed) && ids != [] ==> (Abs(), res) == M.Nack(old(Abs()), ids, kind)
    {
      ids := [];
      if closed {
        return Refused, ids;
      }
      var left := inflight.Keys;
      while left != {}
        invariant left <= inflight.Keys
        invariant forall id :: id in ids <==> id !in left && StaleInFlight(Abs(), id, age, now)
        decreases left
      {
        var id :| id in left;
        if !(age > 0 && inflight[id].since > now - age) {
          ids := ids + [id];
        }
        left := left - {id};
      }
      if ids == [] {
        return Done, ids;
      }
      res := Nack(ids, kind);
    }

    // ---- Close and New ----

    method FlushOldest() returns (ok: bool)
      requires Valid() && memCh != [] && disk != null
      modifies this, disk
      ensures Valid()
      ensures (Abs(), ok) == FlushOne(old(Abs()))
    {
      hide SpillItem, DiskStore.Valid;
      var item := TakeMemory();
      if DiskRefsFull() {
        DropItem(item.id);
        return true;
      }
      var res := Spill(item);
      if !res.Written? {
        led := led.(lost := led.lost + {item.id});
        return false;
      }
      return true;
    }

    method Close() returns (res: Outcome)
      requires Valid()
      modifies this, disk
      ensures Valid()
      ensures (Abs(), res) == M.Close(old(Abs()))
    {
      hide FlushOne, DiskStore.Valid;
      if closed {
        return Done;
      }
      closed := true;
      if disk != null {
        ghost var q := Abs();
        while memCh != []
          invariant Valid() && Flush(Abs()) == Flush(q)
          decreases |memCh|
        {
          FlushShrinks(Abs());
          var ok := FlushOldest();
          if !ok {
            return Error;
          }
        }
        disk.Close();
      }
      return Done;
    }
  }

  // ---- Sums and reversals ----

  lemma NoSizes()
    ensures SumSizes([]) == 0
  {
  }

  lemma SizesSnoc(s: seq<Item>, x: Item)
    ensures SumSizes(s + [x]) == SumSizes(s) + ItemSize(x)
  {
    assert (s + [x])[..|s|] == s;
  }

  lemma ReverseSnoc(s: seq<Item>, i: nat)
    requires i < |s|
    ensures Reverse(s[i..]) == Reverse(s[i + 1..]) + [s[i]]
  {
    assert s[i..][1..] == s[i + 1..];
  }

  lemma EvictShrinksMemory(q: Queue)
    requires q.mem != []
    ensures Evict(q).1 ==> |Evict(q).0.mem| < |q.mem|
  {
    hide AppendItem;
  }

  lemma RemoveKeepsActive(q: Queue)
    requires q.store.Some?
    ensures var (q', ok) := M.RemoveLowest(q);
            q'.store.Some? && |q'.store.value.segs| == |q.store.value.segs| && (ok ==> q'.lowest == q.lowest + 1)
  {
    hide DiskBytes, Replay;
  }

  lemma PeakFrame(q: Queue, now: int)
    ensures q.handRefs != [] ==> RegisterRef(q, now).handRefs == q.handRefs[1..]
    ensures q.handRefs != [] ==> RegisterRef(q, now).handItems == q.handItems
    ensures q.handItems != [] ==> RegisterItem(q, now).handItems == q.handItems[1..]
    ensures q.handItems != [] ==> RegisterItem(q, now).handRefs == q.handRefs
  {
  }

  /** The queue with the items of rest gone from memory and those of mem left. */
  function Keeping(q: Queue, rest: seq<Item>, mem: seq<Item>): Queue {
    q.(mem := mem, memBytes := q.memBytes - SumSizes(rest), memCount := |mem|)
  }

  lemma KeepingLess(q: Queue, rest: seq<Item>, mem: seq<Item>)
    requires mem != []
    ensures Take(Keeping(q, rest, mem)) == Keeping(q, rest + [mem[0]], mem[1..])
  {
    hide SumSizes, ItemSize;
    SizesSnoc(rest, mem[0]);
  }

  lemma NoReverse()
    ensures Reverse([]) == []
  {
  }

  lemma ReleaseOnly(q: Queue, ref: DiskRef)
    ensures var q' := Release(q, ref);
            q' == q.(claims := q'.claims, underflows := q'.underflows, led := q.led.(loc := q.led.loc - {ref.id}))
  {
  }

  lemma ReleaseStore(q: Queue, d: Disk, ref: DiskRef)
    ensures Release(q.(store := Some(d)), ref) == Release(q, ref).(store := Some(d))
    ensures Release(q, ref).led == q.led.(loc := q.led.loc - {ref.id})
  {
  }

  lemma RetireOnly(q: Queue, ref: DiskRef, id: Id)
    ensures var q' := Settle(Release(q, ref), id);
            && q'.unrecordedTotal == q.unrecordedTotal && q'.droppedTotal == q.droppedTotal
            && q'.led.unrecorded == q.led.unrecorded && q'.led.dropped == q.led.dropped
  {
    hide AppendAck, Release;
    ReleaseOnly(q, ref);
  }

  lemma ReturnItemShrinks(q: Queue)
    requires q.handItems != []
    ensures |ReturnItem(q).0.handItems| == |q.handItems| - 1
  {
    hide AppendItem;
  }

  lemma FlushShrinks(q: Queue)
    requires q.mem != [] && q.store.Some?
    ensures FlushOne(q).0.mem == q.mem[1..] && FlushOne(q).0.store.Some?
  {
    hide AppendItem;
  }

  ghost predicate StaleInFlight(q: Queue, id: Id, age: int, now: int) {
    id in q.inflight && !(age > 0 && q.inflight[id].since > now - age)
  }
}
