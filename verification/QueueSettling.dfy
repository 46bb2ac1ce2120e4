/** What settling achieves: an ack is refused only by a failing write, a drop is counted and recorded,
    and compaction stops only where it must. */
module QueueSettling {
  import opened WalCodec
  import opened Wal
  import opened SpillDisk
  import opened DiskFaults
  import opened QueueModel
  import opened QueueRuns
  import opened QueueTheorems
  import opened QueueCrashes
  import opened QueueFlows
  import opened DrainOrder

  // ---- Acks ----

  ghost predicate OnDisk(q: Queue, id: Id) {
    id in q.inflight && q.inflight[id].RefEntry? && q.store.Some?
  }

  /** The first j of the ids are acked and out of flight, durably if they came from disk; everything
      else stays as it was. */
  ghost predicate AckedFirst(q: Queue, q': Queue, ids: seq<Id>, j: nat) {
    && j <= |ids| && SameButFlight(q, q') && q'.inflight.Keys <= q.inflight.Keys
    && (forall i | 0 <= i < j :: AckedOne(q, q', ids[i]))
    && SameFlight(q, q', ids[..j])
    && forall id | id in q'.led.acked && id !in q.led.acked :: id in q.inflight && id in ids[..j]
  }

  ghost predicate AckedOne(q: Queue, q': Queue, id: Id) {
    && id !in q'.inflight && (id in q.inflight ==> id in q'.led.acked) && (OnDisk(q, id) ==> id in q'.led.durable)
  }

  ghost predicate SameButFlight(q: Queue, q': Queue) {
    && q'.refs == q.refs && q'.mem == q.mem && q'.closed == q.closed && q'.store.Some? == q.store.Some?
    && q'.led.dropped == q.led.dropped && q'.led.unrecorded == q.led.unrecorded
    && q.led.acked <= q'.led.acked && q.led.durable <= q'.led.durable
  }

  lemma AckOneLaw(q: Queue, id: Id)
    ensures var (q', ok) := AckOne(q, id);
            && SameButFlight(q, q') && Flows(q, q')
            && (ok ==> q'.inflight == q.inflight - {id} && AckedOne(q, q', id)
                       && q'.led.acked == q.led.acked + if id in q.inflight then {id} else {})
            && (!ok ==> q'.inflight == q.inflight && q'.led.acked == q.led.acked && OnDisk(q, id) && Faults(q, q'))
  {
    hide Append, Release, Follows, Faulty;
    if id !in q.inflight {
      assert q.inflight - {id} == q.inflight;
      FlowsSame(q, q);
    } else if q.inflight[id].RefEntry? && q.store.Some? {
      AppendLaw(q.store.value, AckRec(id));
      ReleaseFrame(q.(inflight := q.inflight - {id}), q.inflight[id].ref);
    } else {
      FlowsSame(q, AckOne(q, id).0);
    }
  }

  lemma AckedNone(q: Queue, ids: seq<Id>)
    ensures AckedFirst(q, q, ids, 0)
  {
  }

  lemma AckedMore(q: Queue, q1: Queue, q2: Queue, ids: seq<Id>, k: nat)
    requires ids != [] && q1.inflight == q.inflight - {ids[0]} && SameButFlight(q, q1) && AckedOne(q, q1, ids[0])
    requires q1.led.acked == q.led.acked + if ids[0] in q.inflight then {ids[0]} else {}
    requires AckedFirst(q1, q2, ids[1..], k)
    ensures AckedFirst(q, q2, ids, k + 1)
  {
    hide AckedOne;
    forall i | 0 <= i < k + 1 ensures AckedOne(q, q2, ids[i]) {
      if i == 0 {
        OneStays(q, q1, q2, ids[0]);
      } else {
        assert ids[1..][i - 1] == ids[i];
        OneEarlier(q, q1, q2, ids[0], ids[i]);
      }
    }
    assert ids[..k + 1] == [ids[0]] + ids[1..][..k];
  }

  lemma OneStays(q: Queue, q1: Queue, q2: Queue, id: Id)
    requires AckedOne(q, q1, id) && q2.inflight.Keys <= q1.inflight.Keys
    requires q1.led.acked <= q2.led.acked && q1.led.durable <= q2.led.durable
    ensures AckedOne(q, q2, id)
  {
  }

  lemma OneEarlier(q: Queue, q1: Queue, q2: Queue, first: Id, id: Id)
    requires q1.inflight == q.inflight - {first} && SameButFlight(q, q1) && AckedOne(q, q1, first)
    requires AckedOne(q1, q2, id) && q1.led.acked <= q2.led.acked && q1.led.durable <= q2.led.durable
    ensures AckedOne(q, q2, id)
  {
  }

  lemma {:induction false} AckLoopLaw(q: Queue, ids: seq<Id>) returns (j: nat)
    ensures var (q', ok) := AckLoop(q, ids);
            && AckedFirst(q, q', ids, j) && Flows(q, q')
            && (ok <==> j == |ids|) && (!ok ==> OnDisk(q, ids[j]) && ids[j] in q'.inflight && Faults(q, q'))
    decreases |ids|
  {
    hide AckOne, AckedFirst, Flows, Faults, AckedOne;
    j := 0;
    AckedNone(q, ids);
    FlowsSame(q, q);
    if ids != [] {
      AckOneLaw(q, ids[0]);
      var (q1, ok) := AckOne(q, ids[0]);
      if ok {
        var k := AckLoopLaw(q1, ids[1..]);
        j := k + 1;
        var q2 := AckLoop(q1, ids[1..]).0;
        assert k <= |ids[1..]| by { FirstBound(q1, q2, ids[1..], k); }
        AckedMore(q, q1, q2, ids, k);
        FlowsTwice(q, q1, q2);
      } else {
        AckedNoneOf(q, q1, ids);
      }
    }
  }

  lemma FirstBound(q: Queue, q': Queue, ids: seq<Id>, j: nat)
    requires AckedFirst(q, q', ids, j)
    ensures j <= |ids|
  {
  }

  lemma AckedNoneOf(q: Queue, q': Queue, ids: seq<Id>)
    requires SameButFlight(q, q') && q'.inflight == q.inflight && q'.led.acked == q.led.acked
    ensures AckedFirst(q, q', ids, 0)
  {
  }

  /** An ack on an open queue records a first part of its ids and leaves the others in flight. It
      reports an error exactly when a part is left, and that only because the write for the next one
      failed: with no failing write every id is acked. */
  lemma AckLaw(q: Queue, ids: seq<Id>) returns (j: nat)
    requires !q.closed
    ensures var (q', res) := Ack(q, ids);
            && AckedFirst(q, q', ids, j) && Flows(q, q')
            && (if j == |ids| then res.Done? else res.Error?)
            && (res.Error? ==> OnDisk(q, ids[j]) && ids[j] in q'.inflight && Faults(q, q'))
  {
    hide AckLoop, Compact, Flows, Faults, AckedOne;
    j := AckLoopLaw(q, ids);
    var q1 := AckLoop(q, ids).0;
    CompactFrame(q1);
    CompactFlows(q1);
    FlowsTwice(q, q1, Compact(q1));
    FlowsStore(q1, Compact(q1));
    forall i | 0 <= i < j ensures AckedOne(q, Compact(q1), ids[i]) {
      OneStays(q, q1, Compact(q1), ids[i]);
    }
  }

  lemma AckedTwice(q: Queue, q1: Queue, q2: Queue, ids: seq<Id>, j: nat, k: nat)
    requires AckedFirst(q, q1, ids, j) && AckedFirst(q1, q2, ids, k)
    ensures AckedFirst(q, q2, ids, if j > k then j else k)
  {
    hide AckedOne;
    var top := if j > k then j else k;
    forall i | 0 <= i < top ensures AckedOne(q, q2, ids[i]) {
      if i < j {
        OneStays(q, q1, q2, ids[i]);
      } else {
        OneTwice(q, q1, q2, ids, j, ids[i]);
      }
    }
    assert forall id | id in ids[..j] || id in ids[..k] :: id in ids[..top];
  }

  lemma OneTwice(q: Queue, q1: Queue, q2: Queue, ids: seq<Id>, j: nat, id: Id)
    requires AckedFirst(q, q1, ids, j) && AckedOne(q1, q2, id) && q2.inflight.Keys <= q1.inflight.Keys
    requires q1.led.acked <= q2.led.acked && q1.led.durable <= q2.led.durable
    ensures AckedOne(q, q2, id)
  {
    if id in q.inflight && id !in q1.inflight {
      assert id in ids[..j];
      var h :| 0 <= h < j && ids[h] == id;
      assert AckedOne(q, q1, ids[h]);
    }
  }

  // ---- Drops ----

  ghost function Flying(q: Queue, ids: seq<Id>): set<Id> {
    set id | id in ids && id in q.inflight
  }

  lemma DropOneLaw(q: Queue, id: Id)
    ensures var q' := DropOne(q, id);
            && q'.inflight == q.inflight - {id} && q'.refs == q.refs && q'.mem == q.mem
            && q'.led.acked == q.led.acked && q'.led.unrecorded == q.led.unrecorded
            && q'.led.dropped == q.led.dropped + (if id in q.inflight then {id} else {})
  {
    hide Settle, Release;
    if id !in q.inflight {
      assert q.inflight - {id} == q.inflight;
    } else if q.inflight[id].RefEntry? {
      var q0 := q.(inflight := q.inflight - {id});
      ReleaseFrame(q0, q.inflight[id].ref);
      SettleFrame(Release(q0, q.inflight[id].ref), id);
    }
  }

  lemma {:induction false} DropAllLaw(q: Queue, ids: seq<Id>)
    ensures var q' := DropAll(q, ids);
            && Flows(q, q') && q'.refs == q.refs && q'.mem == q.mem && q.led.durable <= q'.led.durable
            && q'.led.acked == q.led.acked && q'.led.unrecorded == q.led.unrecorded
            && q'.led.dropped == q.led.dropped + Flying(q, ids)
            && (Faults(q, q') || forall id | id in ids && OnDisk(q, id) :: id in q'.led.durable)
    decreases |ids|
  {
    hide DropOne, Flows, Faults;
    if ids == [] {
      FlowsSame(q, q);
    } else {
      var id, q1 := ids[0], DropOne(q, ids[0]);
      DropOneLaw(q, id);
      DropOneFlows(q, id);
      DropAllLaw(q1, ids[1..]);
      var q2 := DropAll(q1, ids[1..]);
      FlowsTwice(q, q1, q2);
      assert Flying(q, ids) == Flying(q1, ids[1..]) + (if id in q.inflight then {id} else {}) by {
        assert ids == [id] + ids[1..];
      }
      assert q.store.Some? == q1.store.Some? by { FlowsStore(q, q1); }
      forall x | x in ids && OnDisk(q, x) && !Faults(q, q2) ensures x in q2.led.durable {
        assert x == id || x in ids[1..];
      }
    }
  }

  /** A drop counts exactly the named items in flight as dropped, and unless a write failed none of
      them that was on disk comes back at the next start. */
  lemma DropLaw(q: Queue, ids: seq<Id>)
    requires !q.closed
    ensures var (q', res) := Drop(q, ids);
            && res.Done? && q'.refs == q.refs && q'.mem == q.mem
            && q'.led.acked == q.led.acked && q'.led.unrecorded == q.led.unrecorded
            && q'.led.dropped == q.led.dropped + Flying(q, ids) && Flows(q, q')
            && (Faults(q, q') || forall id | id in ids && OnDisk(q, id) :: id in q'.led.durable)
  {
    hide DropAll, Compact, Flows, Faults;
    DropAllLaw(q, ids);
    var q1 := DropAll(q, ids);
    CompactFrame(q1);
    CompactFlows(q1);
    FlowsTwice(q, q1, Compact(q1));
  }

  // ---- Starting ----

  lemma CutOffSettles(q: Queue, ref: DiskRef)
    requires q.store.Some?
    ensures var q' := CutOff(q, ref);
            && Flows(q, q') && q.led.durable <= q'.led.durable && (ref.id in q'.led.durable || Faults(q, q'))
  {
    hide Settle, Flows, Faults;
    var q1 := q.(led := q.led.(accepted := q.led.accepted + {ref.id}));
    SettleFlows(q1, ref.id);
    FlowsAlike(q, q1, Settle(q1, ref.id), CutOff(q, ref));
  }

  lemma {:induction false} CutOffAllSettles(q: Queue, refs: seq<DiskRef>)
    requires q.store.Some?
    ensures var q' := CutOffAll(q, refs);
            && Flows(q, q') && q.led.durable <= q'.led.durable
            && (Faults(q, q') || forall r | r in refs :: r.id in q'.led.durable)
    decreases |refs|
  {
    hide CutOff, Flows, Faults;
    if refs == [] {
      FlowsSame(q, q);
    } else {
      var q1 := CutOff(q, refs[0]);
      CutOffSettles(q, refs[0]);
      FlowsStore(q, q1);
      CutOffAllSettles(q1, refs[1..]);
      FlowsTwice(q, q1, CutOffAll(q1, refs[1..]));
    }
  }

  /** The references a start drops past the cap it also settles: unless a write failed the next start
      does not find them. */
  lemma StartSettles(cfg: Config, segs: Segments, io: nat -> IO, found: seq<DiskRef>, led: Ledger)
    ensures var q, s := Boot(cfg, segs, io, led), Start(cfg, segs, io, found, led);
            && Flows(q, s)
            && (Faults(q, s) || forall r | r in found[Keeps(cfg, found)..] :: r.id in s.led.durable)
  {
    hide AdoptAll, CutOffAll, Replay, LowestFile, DiskBytes, SegmentSize, Flows, Faults;
    var q, kept := Boot(cfg, segs, io, led), found[..Keeps(cfg, found)];
    AdoptAllTakes(q, kept);
    var q1 := AdoptAll(q, kept);
    CutOffAllSettles(q1, found[Keeps(cfg, found)..]);
    FlowsSame(q, q1);
    FlowsTwice(q, q1, Start(cfg, segs, io, found, led));
  }

  // ---- Compaction ----

  ghost predicate RemovalFailed(a: Disk, b: Disk) {
    a.closed || exists t | a.tick <= t < b.tick :: a.io(t).removeFails
  }

  lemma RemoveFails(q: Queue)
    requires Spent(q) && !RemoveLowest(q).1
    ensures var q' := RemoveLowest(q).0;
            q'.store.Some? && RemovalFailed(q.store.value, q'.store.value) && q'.store.value.tick >= q.store.value.tick
  {
    hide Replay, DiskBytes;
  }

  lemma RemoveSteps(q: Queue)
    requires Spent(q)
    ensures var q' := RemoveLowest(q).0;
            && q'.store.Some? && q'.store.value.io == q.store.value.io && q'.store.value.closed == q.store.value.closed
            && q'.store.value.tick >= q.store.value.tick
  {
    hide Replay, DiskBytes;
  }

  /** Compaction goes as far as it can: what it leaves lowest is still claimed or being written, or a
      removal failed. */
  lemma {:induction false} CompactDone(q: Queue)
    requires q.store.Some?
    ensures var q' := Compact(q);
            && q'.store.Some? && q'.store.value.tick >= q.store.value.tick
            && (Spent(q') ==> RemovalFailed(q.store.value, q'.store.value))
    decreases Active(q.store.value.segs) - q.lowest
  {
    hide RemoveLowest, Spent;
    if Spent(q) {
      assert q.lowest < Active(q.store.value.segs) by { SpentBelow(q); }
      RemoveShape(q);
      RemoveSteps(q);
      var (q1, ok) := RemoveLowest(q);
      if ok {
        CompactDone(q1);
      } else {
        RemoveFails(q);
      }
    }
  }

  lemma SpentBelow(q: Queue)
    requires Spent(q)
    ensures q.store.Some? && q.lowest < Active(q.store.value.segs)
  {
  }
}
