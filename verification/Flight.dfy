/** What each operation may do to the set of items in flight. */
module Flight {
  import opened Bytes
  import opened WalCodec
  import opened Wal
  import opened SpillDisk
  import opened QueueModel
  import opened QueueRuns
  import opened QueueTheorems

  ghost predicate FlightWithin(a: Queue, b: Queue) {
    a.inflight.Keys <= b.inflight.Keys
  }

  /** Neither closed nor at a new peak. */
  ghost predicate Still(a: Queue, b: Queue) {
    a.closed == b.closed && a.led.peak == b.led.peak
  }

  // ---- Ack and drop ----

  lemma AckOneFlight(q: Queue, id: Id)
    ensures var (q', ok) := AckOne(q, id); FlightWithin(q', q) && (ok ==> id !in q'.inflight) && Still(q', q)
  {
    hide AppendAck, Release;
    if id in q.inflight && q.inflight[id].RefEntry? {
      ReleaseFrame(q.(inflight := q.inflight - {id}), q.inflight[id].ref);
    }
  }

  lemma {:induction false} AckLoopFlight(q: Queue, ids: seq<Id>)
    ensures var (q', ok) := AckLoop(q, ids);
            FlightWithin(q', q) && Still(q', q) && (ok ==> forall id | id in ids :: id !in q'.inflight)
    decreases |ids|
  {
    hide AckOne;
    if ids != [] {
      AckOneFlight(q, ids[0]);
      AckLoopFlight(AckOne(q, ids[0]).0, ids[1..]);
      forall id | id in ids && AckLoop(q, ids).1 ensures id !in AckLoop(q, ids).0.inflight {
        assert id == ids[0] || id in ids[1..];
      }
    }
  }

  /** Acked ids leave flight when the ack is recorded; a failed one takes nothing in. */
  lemma AckFlight(q: Queue, ids: seq<Id>)
    ensures var (q', res) := Ack(q, ids);
            && FlightWithin(q', q) && Still(q', q) && (res.Refused? <==> q.closed)
            && (res.Done? ==> forall id | id in ids :: id !in q'.inflight)
  {
    hide AckLoop, Compact;
    AckLoopFlight(q, ids);
    CompactFrame(AckLoop(q, ids).0);
  }

  lemma RetireFlight(q: Queue, id: Id, e: Entry, delivered: bool)
    ensures Retire(q, id, e, delivered).inflight == q.inflight && Still(Retire(q, id, e, delivered), q)
  {
    hide Settle, Release;
    if e.RefEntry? {
      ReleaseFrame(q, e.ref);
      SettleFrame(Release(q, e.ref), id);
    }
  }

  lemma {:induction false} DropAllFlight(q: Queue, ids: seq<Id>)
    ensures var q' := DropAll(q, ids);
            FlightWithin(q', q) && Still(q', q) && forall id | id in ids :: id !in q'.inflight
    decreases |ids|
  {
    hide Retire;
    if ids != [] {
      if ids[0] in q.inflight {
        RetireFlight(q.(inflight := q.inflight - {ids[0]}), ids[0], q.inflight[ids[0]], false);
      }
      DropAllFlight(DropOne(q, ids[0]), ids[1..]);
      forall id | id in ids ensures id !in DropAll(q, ids).inflight {
        assert id == ids[0] || id in ids[1..];
      }
    }
  }

  lemma DropFlight(q: Queue, ids: seq<Id>)
    ensures var (q', res) := Drop(q, ids);
            && FlightWithin(q', q) && Still(q', q)
            && (!q.closed ==> forall id | id in ids :: id !in q'.inflight)
  {
    hide DropAll, Compact;
    DropAllFlight(q, ids);
    CompactFrame(DropAll(q, ids));
  }

  // ---- Nack ----

  lemma TakeBackFlight(q: Queue, id: Id, kind: NackKind)
    ensures var q' := TakeBack(q, id, kind);
            q'.inflight.Keys == q.inflight.Keys - {id} && Still(q', q)
  {
    hide Retire;
    if id in q.inflight {
      var q0 := q.(inflight := q.inflight - {id});
      var q1 := if ChargeOf(kind) == 0 then q0
                else q0.(led := q.led.(charges := q.led.charges[id := Charges(q, id) + 1]));
      RetireFlight(q1, id, q.inflight[id], kind.NackDelivered?);
    }
  }

  lemma {:induction false} TakeBackAllFlight(q: Queue, ids: seq<Id>, kind: NackKind)
    ensures var q' := TakeBackAll(q, ids, kind);
            Still(q', q) && forall id :: id in q'.inflight <==> id in q.inflight && id !in ids
    decreases |ids|
  {
    hide TakeBack;
    if ids != [] {
      TakeBackFlight(q, ids[0], kind);
      TakeBackAllFlight(TakeBack(q, ids[0], kind), ids[1..], kind);
      assert forall id :: id in ids <==> id == ids[0] || id in ids[1..];
    }
  }

  lemma ReturnItemFlight(q: Queue)
    requires q.handItems != []
    ensures ReturnItem(q).0.inflight == q.inflight && Still(ReturnItem(q).0, q)
  {
    hide AppendItem;
  }

  lemma {:induction false} ReturnItemsFlight(q: Queue, ok: bool)
    ensures ReturnItems(q, ok).0.inflight == q.inflight && Still(ReturnItems(q, ok).0, q)
    decreases |q.handItems|
  {
    hide ReturnItem;
    if q.handItems != [] {
      ReturnItemFlight(q);
      ReturnShrinks(q);
      ReturnItemsFlight(ReturnItem(q).0, ok && ReturnItem(q).1);
    }
  }

  /** A hand-back takes exactly the ids it names out of flight, whatever becomes of them. */
  lemma NackFlight(q: Queue, ids: seq<Id>, kind: NackKind)
    ensures var (q', res) := Nack(q, ids, kind);
            && FlightWithin(q', q) && Still(q', q)
            && forall id :: id in q'.inflight <==> id in q.inflight && (q.closed || id !in ids)
  {
    hide TakeBackAll, ReturnRefs, ReturnItems, Compact;
    TakeBackAllFlight(q, ids, kind);
    var q1 := TakeBackAll(q, ids, kind);
    ReturnRefsPath(q1);
    ReturnItemsFlight(ReturnRefs(q1), true);
    CompactFrame(ReturnItems(ReturnRefs(q1), true).0);
  }

  // ---- Enqueue and close ----

  lemma EvictFlight(q: Queue)
    ensures Evict(q).0.inflight == q.inflight && Still(Evict(q).0, q)
  {
    hide AppendItem;
  }

  lemma {:induction false} MakeRoomFlight(q: Queue, need: int)
    ensures MakeRoom(q, need).0.inflight == q.inflight && Still(MakeRoom(q, need).0, q)
    decreases |q.mem|
  {
    hide Evict;
    EvictFlight(q);
    if !CanAccept(q, need) && q.mem != [] && Evict(q).1 {
      EvictShrinks(q);
      MakeRoomFlight(Evict(q).0, need);
    }
  }

  lemma EnqueueFlight(q: Queue, item: Item)
    ensures Enqueue(q, item).0.inflight == q.inflight && Still(Enqueue(q, item).0, q)
  {
    hide MakeRoom, DropOldest, AppendItem;
    MakeRoomFlight(q, ItemSize(item));
    DropOldestFlight(q);
  }

  lemma DropOldestFlight(q: Queue)
    ensures DropOldest(q).inflight == q.inflight && Still(DropOldest(q), q)
  {
    hide Settle, Release;
    if q.mem == [] && q.refs != [] {
      var q1 := q.(refs := q.refs[1..], diskCount := q.diskCount - 1);
      ReleaseFrame(q1, q.refs[0]);
      SettleFrame(Release(q1, q.refs[0]), q.refs[0].id);
    }
  }

  lemma {:induction false} FlushFlight(q: Queue)
    ensures Flush(q).0.inflight == q.inflight && Still(Flush(q).0, q)
    decreases |q.mem|
  {
    hide FlushOne;
    if q.mem != [] && q.store.Some? {
      FlushOneFlight(q);
      FlushFlight(FlushOne(q).0);
    }
  }

  lemma FlushOneFlight(q: Queue)
    requires q.mem != [] && q.store.Some?
    ensures FlushOne(q).0.inflight == q.inflight && Still(FlushOne(q).0, q)
    ensures FlushOne(q).0.mem == q.mem[1..]
  {
    hide AppendItem;
  }

  lemma CloseFlight(q: Queue)
    ensures Close(q).0.inflight == q.inflight && Close(q).0.closed && Close(q).0.led.peak == q.led.peak
  {
    hide Flush;
    FlushFlight(q.(closed := true));
  }

  /** Nothing but a dequeue puts an item in flight, and nothing reopens a closed queue. */
  lemma OthersShrinkFlight(q: Queue, op: Op)
    requires Allowed(q, op) && !op.DoDequeue? && !op.DoRestart?
    ensures FlightWithin(Do(q, op), q) && (q.closed ==> Do(q, op).closed) && Do(q, op).led.peak == q.led.peak
  {
    hide Enqueue, Ack, Nack, Drop, Close;
    match op
    case DoEnqueue(item) => EnqueueFlight(q, item);
    case DoAck(ids) => AckFlight(q, ids);
    case DoNack(ids, kind) => NackFlight(q, ids, kind);
    case DoDrop(ids) => DropFlight(q, ids);
    case DoClose => CloseFlight(q);
  }

  // ---- Dequeue ----

  ghost function HandIds(q: Queue): set<Id> {
    RefNames(q.handRefs) + Ids(q.handItems)
  }

  ghost function RefNames(refs: seq<DiskRef>): set<Id> {
    set r | r in refs :: r.id
  }

  ghost function Ids(items: seq<Item>): set<Id> {
    set x | x in items :: x.id
  }

  lemma HeadName(refs: seq<DiskRef>)
    requires refs != []
    ensures RefNames(refs) == RefNames(refs[1..]) + {refs[0].id}
  {
    assert refs == [refs[0]] + refs[1..];
  }

  lemma HeadId(items: seq<Item>)
    requires items != []
    ensures Ids(items) == Ids(items[1..]) + {items[0].id}
  {
    assert items == [items[0]] + items[1..];
  }

  lemma PutEntry(m: map<Id, Entry>, id: Id, e: Entry)
    ensures m[id := e].Keys == m.Keys + {id} && |m[id := e]| <= |m| + 1
  {
    assert |m| == |m.Keys| && |m[id := e]| == |m[id := e].Keys|;
    assert m[id := e].Keys == m.Keys + {id};
  }

  lemma PullRefFlight(q: Queue)
    requires q.refs != [] && q.store.Some?
    ensures var (q', pull) := PullRef(q);
            && q'.inflight == q.inflight && Still(q', q)
            && HandIds(q') == (if pull.Got? then HandIds(q) + {pull.item.id} else HandIds(q))
  {
    hide ReadItem, Settle, Release;
    PullRefHands(q);
    var ref := q.refs[0];
    var q1 := q.(store := Some(ReadItem(q.store.value, ref.segment, ref.offset).0), refs := q.refs[1..],
                 diskCount := q.diskCount - 1);
    ReleaseFrame(q1, ref);
    SettleFrame(Release(q1, ref), ref.id);
    if PullRef(q).1.Got? {
      assert PullRef(q).0.handRefs == q.handRefs + [ref];
    }
  }

  lemma {:induction false} DequeueOneFlight(q: Queue)
    ensures var (q', got) := DequeueOne(q);
            && q'.inflight == q.inflight && Still(q', q)
            && HandIds(q') == (if got.Some? then HandIds(q) + {got.value.id} else HandIds(q))
    decreases |q.refs|
  {
    hide PullRef;
    if q.refs != [] && q.store.Some? {
      PullRefFlight(q);
      PullShrinks(q);
      if PullRef(q).1.Skipped? {
        DequeueOneFlight(PullRef(q).0);
      }
    } else if q.mem != [] {
      assert PullItem(q).handItems == q.handItems + [q.mem[0]];
    }
  }

  lemma {:induction false} PullBatchFlight(q: Queue, n: nat, checks: nat, batch: seq<Item>)
    requires HandIds(q) == Ids(batch)
    ensures var (q', got) := PullBatch(q, n, checks, batch);
            q'.inflight == q.inflight && Still(q', q) && HandIds(q') == Ids(got)
    decreases checks
  {
    hide DequeueOne, HandIds;
    if |batch| < n && checks > 0 {
      DequeueOneFlight(q);
      var (q1, got) := DequeueOne(q);
      if got.Some? {
        assert Ids(batch + [got.value]) == Ids(batch) + {got.value.id};
        PullBatchFlight(q1, n, checks - 1, batch + [got.value]);
      }
    }
  }

  ghost predicate Flown(q: Queue, q': Queue, ids: set<Id>, n: nat) {
    && q'.inflight.Keys == q.inflight.Keys + ids && q'.closed == q.closed && |q'.inflight| <= |q.inflight| + n
    && PeakWithin(q, q')
  }

  /** The peak moves only to a count of items in flight that is still reached. */
  ghost predicate PeakWithin(q: Queue, q': Queue) {
    q'.led.peak <= q.led.peak || q'.led.peak <= |q'.inflight|
  }

  lemma FlownTwice(a: Queue, b: Queue, c: Queue, id: Id, ids: set<Id>, n: nat, all: set<Id>, m: nat)
    requires Flown(a, b, {id}, 1) && Flown(b, c, ids, n) && all == ids + {id} && m == n + 1
    ensures Flown(a, c, all, m)
  {
    assert |b.inflight| <= |c.inflight| by { FlightSize(b, c); }
  }

  lemma FlightSize(a: Queue, b: Queue)
    requires a.inflight.Keys <= b.inflight.Keys
    ensures |a.inflight| <= |b.inflight|
  {
    assert |a.inflight| == |a.inflight.Keys| && |b.inflight| == |b.inflight.Keys|;
    SubsetSize(a.inflight.Keys, b.inflight.Keys);
  }

  lemma FlownNone(q: Queue)
    requires InHand(q) == 0
    ensures Flown(q, q, HandIds(q), 0)
  {
  }

  lemma RegisterRefFlight(q: Queue, now: int)
    requires q.handRefs != []
    ensures var q' := RegisterRef(q, now);
            && Flown(q, q', {q.handRefs[0].id}, 1)
            && HandIds(q) == HandIds(q') + {q.handRefs[0].id} && InHand(q') == InHand(q) - 1
  {
    hide RefNames, Ids, Flown;
    assert RegisterRef(q, now).handItems == q.handItems && RegisterRef(q, now).handRefs == q.handRefs[1..];
    HeadName(q.handRefs);
    FlownOne(q, RegisterRef(q, now), q.handRefs[0].id, RefEntry(q.handRefs[0], now));
  }

  lemma RegisterItemFlight(q: Queue, now: int)
    requires q.handItems != []
    ensures var q' := RegisterItem(q, now);
            && Flown(q, q', {q.handItems[0].id}, 1)
            && HandIds(q) == HandIds(q') + {q.handItems[0].id} && InHand(q') == InHand(q) - 1
  {
    hide RefNames, Ids, Flown;
    assert RegisterItem(q, now).handRefs == q.handRefs && RegisterItem(q, now).handItems == q.handItems[1..];
    HeadId(q.handItems);
    FlownOne(q, RegisterItem(q, now), q.handItems[0].id, MemEntry(q.handItems[0], now));
  }

  lemma FlownOne(q: Queue, q': Queue, id: Id, e: Entry)
    requires q'.inflight == q.inflight[id := e] && q'.closed == q.closed && PeakWithin(q, q')
    ensures Flown(q, q', {id}, 1)
  {
    PutEntry(q.inflight, id, e);
  }

  lemma {:induction false} RegisterFlight(q: Queue, now: int)
    ensures Flown(q, Register(q, now), HandIds(q), InHand(q))
    decreases InHand(q)
  {
    hide RegisterRef, RegisterItem, HandIds, Flown;
    if q.handRefs != [] {
      RegisterRefFlight(q, now);
      RegisterThen(q, RegisterRef(q, now), q.handRefs[0].id, now);
    } else if q.handItems != [] {
      RegisterItemFlight(q, now);
      RegisterThen(q, RegisterItem(q, now), q.handItems[0].id, now);
    } else {
      FlownNone(q);
    }
  }

  lemma {:induction false} RegisterThen(q: Queue, q1: Queue, id: Id, now: int)
    requires InHand(q1) == InHand(q) - 1 && Register(q, now) == Register(q1, now)
    requires HandIds(q) == HandIds(q1) + {id} && Flown(q, q1, {id}, 1)
    ensures Flown(q, Register(q, now), HandIds(q), InHand(q))
    decreases InHand(q), 0
  {
    hide Register, HandIds, Flown, InHand;
    RegisterFlight(q1, now);
    FlownTwice(q, q1, Register(q1, now), id, HandIds(q1), InHand(q1), HandIds(q), InHand(q));
  }

  /** A dequeue puts exactly the items it hands out in flight, n at most. */
  lemma DequeueFlight(q: Queue, n: nat, checks: nat, now: int)
    requires InHand(q) == 0 && n > 0
    ensures var (q', res) := Dequeue(q, n, checks, now);
            && q'.closed == q.closed && PeakWithin(q, q')
            && (res.Batch? ==> q'.inflight.Keys == q.inflight.Keys + Ids(res.items) && 0 < |res.items| <= n
                               && |q'.inflight| <= |q.inflight| + |res.items|)
            && (!res.Batch? ==> q'.inflight == q.inflight)
  {
    hide PullBatch, Compact, Register, HandIds, Ids;
    if checks > 1 {
      assert HandIds(q) == Ids([]) by { NoIds(q); }
      PullBatchFlight(q, n, checks - 1, []);
      PullBatchHands(q, n, checks - 1, []);
      var (q1, batch) := PullBatch(q, n, checks - 1, []);
      CompactFrame(q1);
      var q2 := Compact(q1);
      assert HandIds(q2) == HandIds(q1) by { SameHandIds(q2, q1); }
      RegisterFlight(q2, now);
    }
  }

  lemma NoIds(q: Queue)
    requires InHand(q) == 0
    ensures HandIds(q) == Ids([])
  {
  }

  lemma SameHandIds(a: Queue, b: Queue)
    requires SameHands(a, b)
    ensures HandIds(a) == HandIds(b)
  {
  }
}
