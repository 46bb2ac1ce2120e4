/** The store under each operation of the queue: the same one, some calls later. */
module QueueFlows {
  import opened Bytes
  import opened WalCodec
  import opened Wal
  import opened SpillDisk
  import opened DiskFaults
  import opened QueueModel
  import opened QueueRuns
  import opened QueueFifo

  ghost predicate Flows(q: Queue, q': Queue) {
    q.store.Some? == q'.store.Some? && (q.store.Some? ==> Follows(q.store.value, q'.store.value))
  }

  /** A write failed, or could only fail, between two states of the queue. */
  ghost predicate Faults(q: Queue, q': Queue) {
    q.store.Some? && q'.store.Some? && Faulty(q.store.value, q'.store.value)
  }

  lemma FlowsTwice(a: Queue, b: Queue, c: Queue)
    requires Flows(a, b) && Flows(b, c)
    ensures Flows(a, c)
    ensures Faults(a, b) || Faults(b, c) ==> Faults(a, c)
  {
    hide Follows, Faulty;
    if a.store.Some? {
      FollowsTwice(a.store.value, b.store.value, c.store.value);
      assert Follows(a.store.value, a.store.value) && Follows(c.store.value, c.store.value) by {
        FollowsSelf(a.store.value);
        FollowsSelf(c.store.value);
      }
      if Faults(a, b) {
        FaultyWithin(a.store.value, a.store.value, b.store.value, c.store.value);
      }
      if Faults(b, c) {
        FaultyWithin(a.store.value, b.store.value, c.store.value, c.store.value);
      }
    }
  }

  lemma FollowsSelf(d: Disk)
    ensures Follows(d, d)
  {
  }

  lemma FlowsSame(q: Queue, q': Queue)
    requires q'.store == q.store
    ensures Flows(q, q')
  {
  }

  lemma FlowsStore(q: Queue, q': Queue)
    requires Flows(q, q')
    ensures q.store.Some? == q'.store.Some?
  {
  }

  // ---- Settling, releasing, spilling ----

  lemma SettleFlows(q: Queue, id: Id)
    ensures var q' := Settle(q, id);
            && Flows(q, q')
            && (q.store.Some? ==> id in q'.led.durable || Faults(q, q'))
            && q.led.durable <= q'.led.durable
  {
    hide Append, Follows, Faulty;
    if q.store.Some? {
      AppendLaw(q.store.value, AckRec(id));
    }
  }

  lemma RetireFlows(q: Queue, id: Id, e: Entry, delivered: bool)
    ensures var q' := Retire(q, id, e, delivered);
            && Flows(q, q') && q.led.durable <= q'.led.durable
            && (e.RefEntry? && q.store.Some? ==> id in q'.led.durable || Faults(q, q'))
  {
    hide Settle, Release, Flows, Faults;
    if e.RefEntry? {
      var q1 := Release(q, e.ref);
      ReleaseFrame(q, e.ref);
      SettleFlows(q1, id);
      FlowsAlike(q, q1, Settle(q1, id), Retire(q, id, e, delivered));
    } else {
      FlowsSame(q, Retire(q, id, e, delivered));
    }
  }

  lemma FlowsAlike(q: Queue, q1: Queue, q2: Queue, q3: Queue)
    requires q1.store == q.store && q3.store == q2.store && Flows(q1, q2)
    ensures Flows(q, q3) && (Faults(q1, q2) <==> Faults(q, q3))
  {
  }

  lemma SpillFlows(q: Queue, item: Item)
    requires q.store.Some?
    ensures Flows(q, SpillItem(q, item).0)
  {
    hide Append, Follows;
    FollowsSelf(q.store.value);
    AppendLaw(q.store.value, ItemRec(item));
  }

  // ---- Compaction ----

  lemma {:induction false} CompactFlows(q: Queue)
    ensures Flows(q, Compact(q))
    decreases if q.store.Some? then Active(q.store.value.segs) - q.lowest else 0
  {
    hide RemoveLowest, Flows;
    if !Spent(q) {
      FlowsSame(q, q);
    } else {
      RemoveShape(q);
      RemoveFlows(q);
      var (q1, ok) := RemoveLowest(q);
      if ok {
        CompactFlows(q1);
        FlowsTwice(q, q1, Compact(q1));
      }
    }
  }

  lemma RemoveFlows(q: Queue)
    requires q.store.Some?
    ensures Flows(q, RemoveLowest(q).0)
  {
    hide Remove, Follows, Replay;
    RemoveFollows(q.store.value, q.lowest);
  }

  // ---- Hand-backs ----

  lemma TakeBackFlows(q: Queue, id: Id, kind: NackKind)
    ensures Flows(q, TakeBack(q, id, kind))
  {
    hide Retire, Flows;
    FlowsSame(q, q);
    if id in q.inflight {
      var q0 := q.(inflight := q.inflight - {id});
      var q1 := if ChargeOf(kind) == 0 then q0
                else q0.(led := q.led.(charges := q.led.charges[id := Charges(q, id) + 1]));
      RetireFlows(q1, id, q.inflight[id], kind.NackDelivered?);
      var q2 := Retire(q1, id, q.inflight[id], kind.NackDelivered?);
      FlowsAlike(q, q1, q2, q2);
      FlowsSame(q, q1);
      if !(AttemptsOf(q.inflight[id]) + ChargeOf(kind) > MAX_ATTEMPTS) {
        FlowsSame(q, TakeBack(q, id, kind));
      }
    }
  }

  lemma {:induction false} TakeBackAllFlows(q: Queue, ids: seq<Id>, kind: NackKind)
    ensures Flows(q, TakeBackAll(q, ids, kind))
    decreases |ids|
  {
    hide TakeBack, Flows;
    if ids == [] {
      FlowsSame(q, q);
    } else {
      var q1 := TakeBack(q, ids[0], kind);
      TakeBackFlows(q, ids[0], kind);
      TakeBackAllFlows(q1, ids[1..], kind);
      FlowsTwice(q, q1, TakeBackAll(q1, ids[1..], kind));
    }
  }

  lemma ReturnItemFlows(q: Queue)
    requires q.handItems != []
    ensures Flows(q, ReturnItem(q).0)
  {
    hide SpillItem, Flows, PutFront, CanAccept;
    var n := |q.handItems| - 1;
    var q1 := q.(handItems := q.handItems[..n]);
    if q.store.Some? {
      SpillFlows(q1, q.handItems[n]);
      var q2 := SpillItem(q1, q.handItems[n]).0;
      FlowsAlike(q, q1, q2, q2);
      FlowsAlike(q, q1, q2, CountDrop(q2, q.handItems[n].id));
    }
    FlowsSame(q, q1);
    FlowsSame(q, CountDrop(q1, q.handItems[n].id));
    assert PutFront(q1, q.handItems[n]).store == q.store by { FrontStore(q1, q.handItems[n]); }
    FlowsSame(q, PutFront(q1, q.handItems[n]));
  }

  lemma FrontStore(q: Queue, item: Item)
    ensures PutFront(q, item).store == q.store
  {
    hide Reverse;
  }

  lemma {:induction false} ReturnItemsFlows(q: Queue, ok: bool)
    ensures Flows(q, ReturnItems(q, ok).0)
    decreases |q.handItems|
  {
    hide ReturnItem, Flows;
    if q.handItems == [] {
      FlowsSame(q, q);
    } else {
      var (q1, ok1) := ReturnItem(q);
      ReturnItemFlows(q);
      ReturnShrinks(q);
      ReturnItemsFlows(q1, ok && ok1);
      FlowsTwice(q, q1, ReturnItems(q1, ok && ok1).0);
    }
  }

  lemma NackFlows(q: Queue, ids: seq<Id>, kind: NackKind)
    ensures Flows(q, Nack(q, ids, kind).0)
  {
    hide TakeBackAll, ReturnRefs, ReturnItems, Compact, Flows;
    FlowsSame(q, q);
    var q1 := TakeBackAll(q, ids, kind);
    TakeBackAllFlows(q, ids, kind);
    ReturnRefsPath(q1);
    var q2 := ReturnRefs(q1);
    FlowsSame(q1, q2);
    FlowsTwice(q, q1, q2);
    ReturnItemsFlows(q2, true);
    var q3 := ReturnItems(q2, true).0;
    FlowsTwice(q, q2, q3);
    CompactFlows(q3);
    FlowsTwice(q, q3, Compact(q3));
  }

  // ---- Dropping ----

  lemma DropOneFlows(q: Queue, id: Id)
    ensures var q' := DropOne(q, id);
            && Flows(q, q') && q.led.durable <= q'.led.durable
            && (id in q.inflight && q.inflight[id].RefEntry? && q.store.Some? ==>
                  id in q'.led.durable || Faults(q, q'))
  {
    hide Retire, Flows, Faults;
    FlowsSame(q, q);
    if id in q.inflight {
      var q1 := q.(inflight := q.inflight - {id});
      RetireFlows(q1, id, q.inflight[id], false);
      FlowsAlike(q, q1, Retire(q1, id, q.inflight[id], false), DropOne(q, id));
    }
  }

  // ---- Handing out ----

  lemma PullRefFlows(q: Queue)
    requires q.refs != [] && q.store.Some?
    ensures Flows(q, PullRef(q).0)
  {
    hide ReadItem, DropUnreadable, Flows;
    var ref := q.refs[0];
    var (d, res) := ReadItem(q.store.value, ref.segment, ref.offset);
    ReadFollows(q.store.value, ref.segment, ref.offset);
    var q1 := q.(store := Some(d), refs := q.refs[1..], diskCount := q.diskCount - 1);
    assert Flows(q, q1) by { FlowsTo(q, q1, d); }
    DropUnreadableFlows(q1, ref);
    FlowsTwice(q, q1, DropUnreadable(q1, ref));
    assert Flows(q, q.(store := Some(d))) by { FlowsTo(q, q.(store := Some(d)), d); }
    var q2 := q1.(handRefs := q.handRefs + [ref]);
    assert Flows(q, q2) by { FlowsTo(q, q2, d); }
  }

  lemma FlowsTo(q: Queue, q': Queue, d: Disk)
    requires q.store.Some? && q'.store == Some(d) && Follows(q.store.value, d)
    ensures Flows(q, q')
  {
  }

  lemma DropUnreadableFlows(q: Queue, ref: DiskRef)
    ensures var q' := DropUnreadable(q, ref);
            && Flows(q, q') && q.led.durable <= q'.led.durable && q'.led.dropped == q.led.dropped + {ref.id}
            && (q.store.Some? ==> ref.id in q'.led.durable || Faults(q, q'))
  {
    hide Settle, Release, Flows, Faults;
    var q1 := Release(q, ref);
    ReleaseFrame(q, ref);
    SettleFlows(q1, ref.id);
    SettleFrame(q1, ref.id);
    FlowsAlike(q, q1, Settle(q1, ref.id), DropUnreadable(q, ref));
  }

  lemma {:induction false} DequeueOneFlows(q: Queue)
    ensures Flows(q, DequeueOne(q).0)
    decreases |q.refs|
  {
    hide PullRef, Flows;
    FlowsSame(q, q);
    if q.refs != [] && q.store.Some? {
      PullRefFlows(q);
      PullShrinks(q);
      var (q1, pull) := PullRef(q);
      if pull.Skipped? {
        DequeueOneFlows(q1);
        FlowsTwice(q, q1, DequeueOne(q1).0);
      }
    } else if q.mem != [] {
      FlowsSame(q, PullItem(q));
    }
  }

  lemma {:induction false} PullBatchFlows(q: Queue, n: nat, checks: nat, batch: seq<Item>)
    ensures Flows(q, PullBatch(q, n, checks, batch).0)
    decreases checks
  {
    hide DequeueOne, Flows;
    FlowsSame(q, q);
    if |batch| < n && checks > 0 {
      DequeueOneFlows(q);
      var (q1, got) := DequeueOne(q);
      if got.Some? {
        PullBatchFlows(q1, n, checks - 1, batch + [got.value]);
        FlowsTwice(q, q1, PullBatch(q, n, checks, batch).0);
      }
    }
  }

  lemma DequeueFlows(q: Queue, n: int, checks: nat, now: int)
    ensures Flows(q, Dequeue(q, n, checks, now).0)
  {
    hide PullBatch, Compact, Register, Flows;
    FlowsSame(q, q);
    if n > 0 && checks > 1 {
      PullBatchFlows(q, n, checks - 1, []);
      var q1 := PullBatch(q, n, checks - 1, []).0;
      CompactFlows(q1);
      FlowsTwice(q, q1, Compact(q1));
      RegisterFrame(Compact(q1), now);
      FlowsSame(Compact(q1), Register(Compact(q1), now));
      FlowsTwice(q, Compact(q1), Register(Compact(q1), now));
    }
  }
}
