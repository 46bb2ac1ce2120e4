/** What a dequeue keeps of each item it hands out, and what it takes from memory. */
module QueueDelivery {
  import opened Bytes
  import opened WalCodec
  import opened Wal
  import opened SpillDisk
  import opened DiskFaults
  import opened QueueModel
  import opened QueueInvariant
  import opened QueueSteps
  import opened QueueStepProofs
  import opened QueueRuns
  import opened QueueTheorems
  import opened QueueFifo
  import opened QueueFlows
  import opened QueueThinning

  // ---- Into flight ----

  /** The item, or the reference it was read at, is in hand. */
  ghost predicate InHandFor(q: Queue, x: Item) {
    x in q.handItems || exists r :: r in q.handRefs && r.id == x.id && r.attempts == x.attempts
  }

  /** And here it is in flight: the item itself, or its reference without the payload. */
  ghost predicate FliesFor(q: Queue, x: Item, now: int) {
    && x.id in q.inflight
    && var e := q.inflight[x.id];
       if e.MemEntry? then e == MemEntry(x, now)
       else e.ref.id == x.id && e.ref.attempts == x.attempts && e.since == now
  }

  lemma PullRefHolds(q: Queue)
    requires q.refs != [] && q.store.Some?
    ensures var (q', pull) := PullRef(q);
            && q.handRefs <= q'.handRefs && q'.handItems == q.handItems && (pull.Got? ==> InHandFor(q', pull.item))
  {
    hide ReadItem, DropUnreadable;
    var ref := q.refs[0];
    var (d, res) := ReadItem(q.store.value, ref.segment, ref.offset);
    var q1 := q.(store := Some(d), refs := q.refs[1..], diskCount := q.diskCount - 1);
    DropUnreadableHands(q1, ref);
    assert ref in q.handRefs + [ref];
  }

  lemma DropUnreadableHands(q: Queue, ref: DiskRef)
    ensures var q' := DropUnreadable(q, ref); q'.handRefs == q.handRefs && q'.handItems == q.handItems
  {
    hide Settle, Release;
    ReleaseFrame(q, ref);
    SettleFrame(Release(q, ref), ref.id);
  }

  lemma {:induction false} DequeueOneHolds(q: Queue)
    ensures var (q', got) := DequeueOne(q);
            && q.handRefs <= q'.handRefs && q.handItems <= q'.handItems && (got.Some? ==> InHandFor(q', got.value))
    decreases |q.refs|
  {
    hide PullRef;
    if q.refs != [] && q.store.Some? {
      PullRefHolds(q);
      PullShrinks(q);
      if PullRef(q).1.Skipped? {
        DequeueOneHolds(PullRef(q).0);
      }
    }
  }

  lemma {:induction false} PullBatchHolds(q: Queue, n: nat, checks: nat, batch: seq<Item>)
    requires forall x | x in batch :: InHandFor(q, x)
    ensures forall x | x in PullBatch(q, n, checks, batch).1 :: InHandFor(PullBatch(q, n, checks, batch).0, x)
    decreases checks
  {
    hide DequeueOne;
    if |batch| < n && checks > 0 {
      DequeueOneHolds(q);
      var (q1, got) := DequeueOne(q);
      forall x | x in batch ensures InHandFor(q1, x) {
        assert InHandFor(q, x);
      }
      if got.Some? {
        PullBatchHolds(q1, n, checks - 1, batch + [got.value]);
      }
    }
  }

  /** What is in hand is not in flight. */
  lemma HandNotFlying(q: Queue)
    requires Inv(q)
    ensures q.handRefs != [] ==> q.handRefs[0].id !in q.inflight
    ensures q.handItems != [] ==> q.handItems[0].id !in q.inflight
  {
    hide LogInv, ClaimsExact, Placed, Unsettled, TriedAll, Counted, Bounded, Fates;
    if q.handRefs != [] {
      Once(q, q.handRefs[0].id);
      assert RefIds(q.handRefs)[0] == q.handRefs[0].id;
      assert q.handRefs[0].id in RefBag(q.handRefs);
    }
    if q.handItems != [] {
      Once(q, q.handItems[0].id);
      assert ItemIdsOf(q.handItems)[0] == q.handItems[0].id;
      assert q.handItems[0].id in ItemBag(q.handItems);
    }
  }

  /** Registering puts everything in hand in flight as it is, and leaves what flew. */
  lemma {:induction false} RegisterEntries(q: Queue, now: int)
    requires Inv(q)
    ensures var q' := Register(q, now);
            && (forall r | r in q.handRefs :: r.id in q'.inflight && q'.inflight[r.id] == RefEntry(r, now))
            && (forall x | x in q.handItems :: x.id in q'.inflight && q'.inflight[x.id] == MemEntry(x, now))
            && (forall id | id in q.inflight :: id in q'.inflight && q'.inflight[id] == q.inflight[id])
    decreases |q.handRefs| + |q.handItems|
  {
    hide Inv, RegisterRef, RegisterItem;
    HandNotFlying(q);
    if q.handRefs != [] {
      StepKeeps(q, ToFlightRef(now));
      RefRegistered(q, now);
      RegisterEntries(RegisterRef(q, now), now);
      assert forall r | r in q.handRefs :: r == q.handRefs[0] || r in q.handRefs[1..];
    } else if q.handItems != [] {
      StepKeeps(q, ToFlightItem(now));
      ItemRegistered(q, now);
      var q1, first := RegisterItem(q, now), q.handItems[0];
      RegisterEntries(q1, now);
      assert first.id in q1.inflight && q1.inflight[first.id] == MemEntry(first, now);
      forall x | x in q.handItems
        ensures x.id in Register(q, now).inflight && Register(q, now).inflight[x.id] == MemEntry(x, now)
      {
        assert x == first || x in q1.handItems;
      }
    }
  }

  lemma RefRegistered(q: Queue, now: int)
    requires q.handRefs != []
    ensures var q', r := RegisterRef(q, now), q.handRefs[0];
            && q'.handRefs == q.handRefs[1..] && q'.handItems == q.handItems
            && q'.inflight == q.inflight[r.id := RefEntry(r, now)]
  {
  }

  lemma ItemRegistered(q: Queue, now: int)
    requires q.handItems != []
    ensures var q', x := RegisterItem(q, now), q.handItems[0];
            && q'.handItems == q.handItems[1..] && q'.handRefs == q.handRefs
            && q'.inflight == q.inflight[x.id := MemEntry(x, now)]
  {
  }

  /** Every item a dequeue hands out is in flight: a memory item whole, one from disk as its reference
      with the same attempts. What was in flight stays as it was. */
  lemma DequeueEntries(q: Queue, n: int, checks: nat, now: int)
    requires Good(q)
    ensures var (q', res) := Dequeue(q, n, checks, now);
            && (res.Batch? ==> forall x | x in res.items :: FliesFor(q', x, now))
            && (forall id | id in q.inflight :: id in q'.inflight && q'.inflight[id] == q.inflight[id])
  {
    hide Inv, Booted, PullBatch, Compact, Register, InHandFor;
    if n > 0 && checks > 1 {
      PullBatchHolds(q, n, checks - 1, []);
      PullBatchPath(q, n, checks - 1, []);
      var (q1, batch) := PullBatch(q, n, checks - 1, []);
      PathInv(q, q1);
      assert q1.inflight == q.inflight by { PullFlight(q, n, checks - 1, []); }
      CompactFrame(q1);
      CompactPath(q1);
      PathInv(q1, Compact(q1));
      RegisterEntries(Compact(q1), now);
      forall x | x in batch ensures FliesFor(Register(Compact(q1), now), x, now) {
        HeldFlies(q1, Register(Compact(q1), now), x, now);
      }
    }
  }

  lemma HeldFlies(q1: Queue, q': Queue, x: Item, now: int)
    requires InHandFor(q1, x)
    requires forall r | r in q1.handRefs :: r.id in q'.inflight && q'.inflight[r.id] == RefEntry(r, now)
    requires forall y | y in q1.handItems :: y.id in q'.inflight && q'.inflight[y.id] == MemEntry(y, now)
    ensures FliesFor(q', x, now)
  {
  }

  lemma {:induction false} PullFlight(q: Queue, n: nat, checks: nat, batch: seq<Item>)
    ensures PullBatch(q, n, checks, batch).0.inflight == q.inflight
    decreases checks
  {
    hide DequeueOne;
    if |batch| < n && checks > 0 {
      OneFlight(q);
      var (q1, got) := DequeueOne(q);
      if got.Some? {
        PullFlight(q1, n, checks - 1, batch + [got.value]);
      }
    }
  }

  lemma {:induction false} OneFlight(q: Queue)
    ensures DequeueOne(q).0.inflight == q.inflight
    decreases |q.refs|
  {
    hide PullRef;
    if q.refs != [] && q.store.Some? {
      RefFlight(q);
      PullShrinks(q);
      if PullRef(q).1.Skipped? {
        OneFlight(PullRef(q).0);
      }
    }
  }

  lemma RefFlight(q: Queue)
    requires q.refs != [] && q.store.Some?
    ensures PullRef(q).0.inflight == q.inflight
  {
    hide ReadItem, Settle, Release;
    var ref := q.refs[0];
    var q1 := q.(store := Some(ReadItem(q.store.value, ref.segment, ref.offset).0), refs := q.refs[1..],
                 diskCount := q.diskCount - 1);
    ReleaseFrame(q1, ref);
    SettleFrame(Release(q1, ref), ref.id);
  }

  // ---- What cannot be read ----

  ghost predicate ReadFailed(q: Queue, q': Queue)
    requires q.store.Some? && q'.store.Some?
  {
    exists t | q.store.value.tick <= t < q'.store.value.tick :: q.store.value.io(t).readFails
  }

  /** Something was dropped only if a read failed, and it is settled unless a write failed too. */
  ghost predicate LosesUnread(q: Queue, q': Queue) {
    && Flows(q, q') && q.store.Some? && q.led.dropped <= q'.led.dropped && q.led.durable <= q'.led.durable
    && (q'.led.dropped != q.led.dropped ==> ReadFailed(q, q'))
    && (Faults(q, q') || forall id | id in q'.led.dropped && id !in q.led.dropped :: id in q'.led.durable)
  }

  lemma LosesTwice(a: Queue, b: Queue, c: Queue)
    requires LosesUnread(a, b) && LosesUnread(b, c)
    ensures LosesUnread(a, c)
  {
    hide Faults;
    FlowsTwice(a, b, c);
  }

  lemma LosesNone(q: Queue, q': Queue)
    requires Flows(q, q') && q.store.Some? && q'.led.dropped == q.led.dropped && q'.led.durable == q.led.durable
    ensures LosesUnread(q, q')
  {
    hide Flows, Faults;
    FlowsStore(q, q');
  }

  lemma UnreadableLoses(q: Queue, q1: Queue, ref: DiskRef)
    requires q.store.Some? && q1.store.Some? && q1.led == q.led && Flows(q, q1)
    requires q.store.value.tick < q1.store.value.tick && q.store.value.io(q.store.value.tick).readFails
    ensures LosesUnread(q, DropUnreadable(q1, ref))
  {
    hide DropUnreadable, Faults;
    DropUnreadableFlows(q1, ref);
    FlowsTwice(q, q1, DropUnreadable(q1, ref));
  }

  /** The oldest reference is skipped exactly when reading it fails. */
  lemma PullRefLoses(q: Queue)
    requires Awake(q) && q.refs != []
    requires Inv(q)
    ensures var (q', pull) := PullRef(q);
            && LosesUnread(q, q')
            && (if q.store.value.io(q.store.value.tick).readFails then pull.Skipped? else pull.Got?)
  {
    hide Inv, ReadItem, DropUnreadable, Flows, Faults;
    var ref := q.refs[0];
    ReadFront(q);
    var (d, res) := ReadItem(q.store.value, ref.segment, ref.offset);
    var q1 := q.(store := Some(d), refs := q.refs[1..], diskCount := q.diskCount - 1);
    PullRefFlows(q);
    assert Flows(q, q1) && q.store.value.tick < d.tick by {
      ReadTicks(q.store.value, ref.segment, ref.offset);
      FlowsTo(q, q1, d);
    }
    if res.Unreadable? {
      UnreadableLoses(q, q1, ref);
    } else {
      LosesNone(q, PullRef(q).0);
    }
  }

  lemma ReadTicks(d: Disk, segment: nat, offset: nat)
    ensures var d' := ReadItem(d, segment, offset).0; Follows(d, d') && (!d.closed ==> d.tick < d'.tick)
  {
    hide ReadAt, SegmentBytes;
  }

  lemma {:induction false} DequeueOneLoses(q: Queue)
    requires Awake(q)
    requires Inv(q)
    ensures var q' := DequeueOne(q).0; LosesUnread(q, q') && Awake(q') && Inv(q')
    decreases |q.refs|
  {
    hide Inv, PullRef, LosesUnread;
    if q.refs != [] {
      PullRefLoses(q);
      PullRefThins(q);
      PullRefPath(q);
      var (q1, pull) := PullRef(q);
      PathInv(q, q1);
      PullShrinks(q);
      if pull.Skipped? {
        DequeueOneLoses(q1);
        LosesTwice(q, q1, DequeueOne(q1).0);
      }
    } else {
      DequeueOnePath(q);
      PathInv(q, DequeueOne(q).0);
      FlowsSame(q, DequeueOne(q).0);
      LosesNone(q, DequeueOne(q).0);
    }
  }

  lemma {:induction false} PullBatchLoses(q: Queue, n: nat, checks: nat, batch: seq<Item>)
    requires Awake(q)
    requires Inv(q)
    ensures LosesUnread(q, PullBatch(q, n, checks, batch).0)
    decreases checks
  {
    hide Inv, DequeueOne, LosesUnread;
    if |batch| < n && checks > 0 {
      DequeueOneLoses(q);
      var (q1, got) := DequeueOne(q);
      if got.Some? {
        PullBatchLoses(q1, n, checks - 1, batch + [got.value]);
        LosesTwice(q, q1, PullBatch(q, n, checks, batch).0);
      }
    } else {
      FlowsSame(q, q);
      LosesNone(q, q);
    }
  }

  /** A dequeue drops something only when a read fails, and settles it: unless a write failed too the
      next start does not find it. */
  lemma DequeueLoses(q: Queue, n: int, checks: nat, now: int)
    requires Awake(q)
    requires Inv(q)
    ensures LosesUnread(q, Dequeue(q, n, checks, now).0)
  {
    hide Inv, PullBatch, Compact, Register, LosesUnread;
    var q' := Dequeue(q, n, checks, now).0;
    if n > 0 && checks > 1 {
      PullBatchLoses(q, n, checks - 1, []);
      var q1 := PullBatch(q, n, checks - 1, []).0;
      CompactFlows(q1);
      CompactFrame(q1);
      RegisterFrame(Compact(q1), now);
      FlowsSame(Compact(q1), q');
      FlowsTwice(q1, Compact(q1), q');
      LosesSome(q, q1);
      LosesNone(q1, q');
      LosesTwice(q, q1, q');
    } else {
      FlowsSame(q, q);
      LosesNone(q, q);
    }
  }

  lemma LosesSome(q: Queue, q': Queue)
    requires LosesUnread(q, q')
    ensures q'.store.Some?
  {
  }

  // ---- From memory alone ----

  ghost function AtMost(n: nat, m: nat): nat {
    if n < m then n else m
  }

  lemma {:induction false} PullMemory(q: Queue, n: nat, checks: nat, batch: seq<Item>)
    requires q.refs == [] && |batch| <= n && checks > n - |batch|
    ensures var (q', got) := PullBatch(q, n, checks, batch); var m := AtMost(n - |batch|, |q.mem|);
            && got == batch + q.mem[..m] && q'.mem == q.mem[m..] && q'.refs == [] && q'.closed == q.closed
            && q'.store == q.store
    decreases checks
  {
    hide DequeueOne;
    OneMemory(q);
    if |batch| < n && q.mem != [] {
      var q1 := DequeueOne(q).0;
      PullMemory(q1, n, checks - 1, batch + [q.mem[0]]);
      TookFirst(batch, q.mem, AtMost(n - |batch|, |q.mem|));
    } else {
      assert batch + q.mem[..0] == batch && q.mem[0..] == q.mem;
    }
  }

  lemma OneMemory(q: Queue)
    requires q.refs == []
    ensures var (q', got) := DequeueOne(q);
            && q'.refs == [] && q'.closed == q.closed && q'.store == q.store
            && (if q.mem == [] then q' == q && got.None? else q'.mem == q.mem[1..] && got == Some(q.mem[0]))
  {
  }

  lemma TookFirst(batch: seq<Item>, mem: seq<Item>, m: nat)
    requires 0 < m <= |mem|
    ensures batch + [mem[0]] + mem[1..][..m - 1] == batch + mem[..m] && mem[1..][m - 1..] == mem[m..]
  {
    assert mem[..m] == [mem[0]] + mem[1..][..m - 1];
  }

  /** With nothing on disk, closed or not, a dequeue whose context lasts hands out the oldest items of
      memory, all of them up to n; with none it parks, or reports the queue drained once it is closed. */
  lemma DequeueMemory(q: Queue, n: nat, checks: nat, now: int)
    requires q.refs == [] && n > 0 && checks > n + 1
    ensures var (q', res) := Dequeue(q, n, checks, now); var m := AtMost(n, |q.mem|);
            && q'.mem == q.mem[m..] && q'.refs == []
            && res == if m > 0 then Batch(q.mem[..m]) else if q.closed then Drained else Parked
  {
    hide PullBatch, Compact, Register;
    PullMemory(q, n, checks - 1, []);
    var q1 := PullBatch(q, n, checks - 1, []).0;
    CompactFrame(q1);
    RegisterFrame(Compact(q1), now);
    assert [] + q.mem[..AtMost(n, |q.mem|)] == q.mem[..AtMost(n, |q.mem|)];
  }
}
