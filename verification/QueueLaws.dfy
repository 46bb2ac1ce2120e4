/** The promises of the queue, for every run of it. */
module QueueLaws {
  import opened Bytes
  import opened WalCodec
  import opened Wal
  import opened SpillDisk
  import opened WalLog
  import opened QueueModel
  import opened QueueInvariant
  import opened QueueSteps
  import opened QueueStepProofs
  import opened QueueRuns
  import opened QueueTheorems

  // ---- Recovery ----

  /** r is queued, in hand, or in flight. */
  ghost predicate LiveRef(q: Queue, r: DiskRef) {
    || r in q.refs || r in q.handRefs
    || (r.id in q.inflight && q.inflight[r.id].RefEntry? && q.inflight[r.id].ref == r)
  }

  ghost predicate Returned(pending: map<Id, DiskRef>, r: DiskRef) {
    r.id in pending && pending[r.id].segment == r.segment && pending[r.id].offset == r.offset
  }

  /** Replaying the files returns every live disk item at its place; never an item whose ack was
      written; and besides the live ones only items given up on, none of whose acks was written. */
  ghost predicate RecoveryExact(q: Queue)
    requires q.store.Some?
  {
    var pending := Recover(q.store.value.segs).pending;
    && (forall r | LiveRef(q, r) :: Returned(pending, r))
    && (forall id | id in q.led.durable :: id !in pending)
    && (forall id | id in pending ::
          || (exists r :: LiveRef(q, r) && r.id == id)
          || (id in q.led.dropped + q.led.unrecorded && id !in q.led.durable))
  }

  lemma LiveAt(q: Queue, r: DiskRef)
    requires Placed(q.refs, q.handRefs, q.inflight, q.led.loc) && LiveRef(q, r)
    ensures At(q.led.loc, r)
  {
  }

  lemma LocLive(q: Queue, id: Id) returns (r: DiskRef)
    requires Placed(q.refs, q.handRefs, q.inflight, q.led.loc) && id in q.led.loc
    ensures LiveRef(q, r) && r.id == id
  {
    assert HeldAsRef(q.refs, q.handRefs, q.inflight, id);
    if id in RefBag(q.refs) {
      r := OutOfRefBag(q.refs, id);
    } else if id in RefBag(q.handRefs) {
      r := OutOfRefBag(q.handRefs, id);
    } else {
      assert EntryId(q.inflight[id]) == id;
      r := q.inflight[id].ref;
    }
  }

  lemma StaleFate(q: Queue, id: Id)
    requires Conserved(q) && Booted(q) && GivenUp(q.led) && id in q.led.stale
    requires Unsettled(Holding(q), q.led.durable, q.led.stale, q.led.accepted, q.led.seen)
    ensures id in q.led.dropped + q.led.unrecorded && id !in q.led.durable
  {
    hide Holding;
    assert (Holding(q) + Fates(q.led))[id] == multiset(q.led.accepted)[id];
  }

  lemma RecoveryLaw(q: Queue)
    requires Inv(q) && Booted(q) && q.store.Some?
    ensures RecoveryExact(q)
  {
    hide Conserved, Holding, Fates, ClaimsExact, Unsettled, TriedAll, Counted, Bounded, RefBag, Placed,
         AllReadable, AcksFollowItems, Recover, Replay, Booted, GivenUp, LiveRef;
    var segs := q.store.value.segs;
    RecoverIsReplay(segs);
    LiveNotStale(q);
    var pending := Recover(segs).pending;
    forall r | LiveRef(q, r) ensures Returned(pending, r) {
      LiveAt(q, r);
    }
    forall id | id in q.led.durable ensures id !in pending {
      DurableNotStale(q, id);
    }
    forall id | id in pending && !(id in q.led.dropped + q.led.unrecorded && id !in q.led.durable)
      ensures exists r :: LiveRef(q, r) && r.id == id
    {
      if id in q.led.stale {
        StaleFate(q, id);
      }
      var r := LocLive(q, id);
    }
  }

  lemma DurableNotStale(q: Queue, id: Id)
    requires Unsettled(Holding(q), q.led.durable, q.led.stale, q.led.accepted, q.led.seen) && id in q.led.durable
    ensures id !in q.led.stale
  {
  }

  /** Every live reference reads back: the record it names holds its item. */
  lemma LiveReadable(q: Queue, r: DiskRef)
    requires Inv(q) && q.store.Some? && LiveRef(q, r)
    ensures r.segment < |q.store.value.segs| && q.store.value.segs[r.segment].Some?
    ensures var item := ReadAt(SegmentBytes(q.store.value.segs[r.segment].value), r.offset);
            item.Some? && item.value.id == r.id
  {
    hide Conserved, Holding, Fates, ClaimsExact, Unsettled, TriedAll, Counted, Bounded, RefBag, Placed,
         AcksFollowItems, Replay, SegmentBytes, SegmentSize, ReadAt;
    var segs := q.store.value.segs;
    assert At(q.led.loc, r) by { LiveAt(q, r); }
    hide LiveRef;
    var ref := Replay(segs).pending[r.id];
    ReplayLocates(segs, r.id);
    var recs := Records(segs, ref.segment);
    var i :| HoldsAt(recs, i, ref);
    assert Readable(recs[i]);
    ReadBack(recs, i);
  }

  // ---- Conservation ----

  /** Between operations the counters account for every item accepted or recovered. */
  lemma ConservationLaw(q: Queue)
    requires Good(q)
    ensures |q.led.accepted| == |q.led.acked| + q.droppedTotal + q.unrecordedTotal + |q.led.lost|
                                + (q.memCount + q.diskCount) + |q.inflight|
    ensures q.memBytes == SumSizes(q.mem) && q.memCount == |q.mem| && q.diskCount == |q.refs|
  {
    hide LogInv, ClaimsExact, Placed, Unsettled, TriedAll, Bounded, Booted, SumSizes;
    assert |multiset(q.led.accepted)| == |Holding(q) + Fates(q.led)|;
    assert |RefBag(q.refs)| == |q.refs| && |ItemBag(q.mem)| == |q.mem|;
    assert RefBag(q.handRefs) == multiset{} && ItemBag(q.handItems) == multiset{};
    assert |multiset(q.inflight.Keys)| == |q.inflight.Keys| == |q.inflight|;
  }

  // ---- Compaction ----

  /** Compaction takes nothing live out of recovery, and changes its answer exactly when a stale
      record sat in a deleted segment. */
  lemma CompactionLaw(q: Queue)
    requires q.store.Some?
    requires Inv(q)
    ensures Compact(q).store.Some?
    ensures var q' := Compact(q);
            var before, after := Recover(q.store.value.segs).pending, Recover(q'.store.value.segs).pending;
            && Inv(q') && q'.led.loc == q.led.loc
            && (forall id | id in after :: id in before && after[id] == before[id])
            && (forall id | id in before && id !in after :: id in q.led.stale)
            && (forall id | id in before :: id in after <==> before[id].segment >= q'.lowest)
            && (after == before <==> forall id | id in q.led.stale && id in before :: before[id].segment >= q'.lowest)
            && (q.led.stale == {} ==> after == before)
  {
    hide Inv, Recover, Replay, Compact;
    CompactPath(q);
    var q' := Compact(q);
    PathInv(q, q');
    CompactStore(q);
    CompactFrame(q);
    InvReadable(q);
    InvReadable(q');
    RecoverIsReplay(q.store.value.segs);
    RecoverIsReplay(q'.store.value.segs);
    CompactReplay(q);
    PendingOf(q);
    PendingOf(q');
    var before, after := Replay(q.store.value.segs).pending, Replay(q'.store.value.segs).pending;
    forall id | id in after ensures after[id].segment >= q'.lowest {
      PendingAbove(q', id);
    }
    if forall id | id in q.led.stale && id in before :: before[id].segment >= q'.lowest {
      assert after.Keys == before.Keys;
      assert after == before;
    }
  }

  /** Everything a replay returns is recorded at or above the cursor: below it no file is left. */
  lemma PendingAbove(q: Queue, id: Id)
    requires Inv(q) && q.store.Some? && id in Replay(q.store.value.segs).pending
    ensures Replay(q.store.value.segs).pending[id].segment >= q.lowest
  {
    hide Conserved, Holding, ClaimsExact, Placed, Unsettled, TriedAll, Counted, Bounded, Replay, AllReadable,
         AcksFollowItems;
    ReplayLocates(q.store.value.segs, id);
  }

  lemma PendingOf(q: Queue)
    requires Inv(q) && q.store.Some?
    ensures Replay(q.store.value.segs).pending.Keys == q.led.loc.Keys + q.led.stale
  {
    hide Conserved, Holding, ClaimsExact, Placed, Unsettled, TriedAll, Counted, Bounded, LogExact, Replay;
    PendingKeys(q);
  }

  lemma {:induction false} CompactStore(q: Queue)
    requires q.store.Some?
    ensures Compact(q).store.Some?
    decreases Active(q.store.value.segs) - q.lowest
  {
    hide RemoveLowest;
    if Spent(q) {
      RemoveShape(q);
      if RemoveLowest(q).1 {
        CompactStore(RemoveLowest(q).0);
      }
    }
  }

  lemma {:induction false} CompactReplay(q: Queue)
    requires Inv(q) && q.store.Some? && Compact(q).store.Some?
    ensures var before, after := Replay(q.store.value.segs).pending, Replay(Compact(q).store.value.segs).pending;
            && (forall id | id in after :: id in before && after[id] == before[id])
            && (forall id | id in before && id !in after :: before[id].segment < Compact(q).lowest)
            && Compact(q).lowest >= q.lowest
    decreases Active(q.store.value.segs) - q.lowest
  {
    hide Inv, Replay, RemoveLowest;
    if Spent(q) {
      RemoveShape(q);
      var (q1, ok) := RemoveLowest(q);
      if ok {
        RemoveReplay(q);
        Go(q, Reclaim);
        StepKeeps(q, Reclaim);
        CompactReplay(q1);
      }
    }
  }

  lemma RemoveReplay(q: Queue)
    requires Inv(q) && Spent(q) && RemoveLowest(q).1
    ensures Replay(RemoveLowest(q).0.store.value.segs).pending == Outside(Replay(q.store.value.segs).pending, q.lowest)
  {
    hide Conserved, Holding, Fates, LogExact, ClaimsExact, Placed, TriedAll, Remove, Replay, Counted, Bounded, Outside;
    LiveNotStale(q);
    ClaimsSpent(q.claims, q.led.loc, q.lowest);
    RemoveLog(q.store.value, q.lowest, q.led.loc, q.led.stale, q.led.durable);
  }

  /** No live reference points below the cursor, so nothing a deletion takes was live. */
  lemma DeletedIsDead(q: Queue, r: DiskRef)
    requires Inv(q) && q.store.Some? && LiveRef(q, r)
    ensures q.lowest <= r.segment <= Active(q.store.value.segs)
    ensures Spent(q) ==> r.segment != q.lowest
  {
    LiveReadable(q, r);
    hide Conserved, Holding, Fates, Unsettled, TriedAll, Counted, Bounded, RefBag, Placed, Replay,
         AllReadable, AcksFollowItems, SegmentBytes, ReadAt;
    assert At(q.led.loc, r) by { LiveAt(q, r); }
    hide LiveRef;
    assert r.id in On(q.led.loc, r.segment);
    if Spent(q) {
      ClaimsSpent(q.claims, q.led.loc, q.lowest);
    }
  }

  // ---- Claims ----

  ghost function RefsOn(refs: seq<DiskRef>, s: nat): seq<DiskRef> {
    if refs == [] then [] else
    var n := |refs| - 1;
    RefsOn(refs[..n], s) + (if refs[n].segment == s then [refs[n]] else [])
  }

  ghost function FlightOn(inflight: map<Id, Entry>, s: nat): set<Id> {
    set id | id in inflight && inflight[id].RefEntry? && inflight[id].ref.segment == s
  }

  lemma {:induction false} RefsOnBag(refs: seq<DiskRef>, loc: map<Id, Loc>, s: nat, id: Id)
    requires forall r | r in refs :: At(loc, r)
    ensures RefBag(RefsOn(refs, s))[id] == if id in On(loc, s) then RefBag(refs)[id] else 0
  {
    hide RefBag;
    if refs == [] {
      assert RefBag([]) == multiset{} by { EmptyBag(); }
    } else {
      var n := |refs| - 1;
      var r := refs[n];
      assert At(loc, r);
      assert refs == refs[..n] + [r];
      RefBagPush(r, refs[..n]);
      RefsOnBag(refs[..n], loc, s, id);
      RefBagPush(r, RefsOn(refs[..n], s));
      if r.segment != s {
        assert RefsOn(refs, s) == RefsOn(refs[..n], s);
      }
    }
  }

  lemma EmptyBag()
    ensures RefBag([]) == multiset{}
  {
  }

  lemma FlightOnBag(inflight: map<Id, Entry>, loc: map<Id, Loc>, s: nat, id: Id)
    requires forall x | x in inflight :: EntryId(inflight[x]) == x
    requires forall x | x in inflight && inflight[x].RefEntry? :: At(loc, inflight[x].ref)
    ensures id in FlightOn(inflight, s) <==> id in inflight && inflight[id].RefEntry? && id in On(loc, s)
  {
    if id in inflight && inflight[id].RefEntry? {
      assert EntryId(inflight[id]) == id;
    }
  }

  /** The three places a live item may be, restricted to one segment, make up exactly the live
      items recorded in that segment. */
  lemma OnSegment(q: Queue, s: nat)
    requires Conserved(q) && Placed(q.refs, q.handRefs, q.inflight, q.led.loc)
    ensures RefBag(RefsOn(q.refs, s)) + RefBag(RefsOn(q.handRefs, s)) + multiset(FlightOn(q.inflight, s))
            == multiset(On(q.led.loc, s))
  {
    var all := RefBag(RefsOn(q.refs, s)) + RefBag(RefsOn(q.handRefs, s)) + multiset(FlightOn(q.inflight, s));
    hide RefBag, ItemBag, Fates;
    forall id: Id ensures all[id] == multiset(On(q.led.loc, s))[id] {
      RefsOnBag(q.refs, q.led.loc, s, id);
      RefsOnBag(q.handRefs, q.led.loc, s, id);
      FlightOnBag(q.inflight, q.led.loc, s, id);
      Once(q, id);
      if id in On(q.led.loc, s) {
        assert HeldAsRef(q.refs, q.handRefs, q.inflight, id);
      }
    }
  }

  /** Each segment's claim count is its queued references, plus those a dequeue holds in hand, plus
      those in flight; no release ever underflowed. */
  lemma ClaimsLaw(q: Queue, s: nat)
    requires Inv(q)
    ensures Claim(q, s) == |RefsOn(q.refs, s)| + |RefsOn(q.handRefs, s)| + |FlightOn(q.inflight, s)|
    ensures q.underflows == 0
  {
    hide Conserved, Holding, Fates, Placed, LogInv, Unsettled, TriedAll, Counted, Bounded, RefsOn, FlightOn, On;
    OnSegment(q, s);
    assert ClaimAt(q.claims, s) == |On(q.led.loc, s)|;
    assert |RefBag(RefsOn(q.refs, s))| == |RefsOn(q.refs, s)|;
    assert |RefBag(RefsOn(q.handRefs, s))| == |RefsOn(q.handRefs, s)|;
    assert |multiset(FlightOn(q.inflight, s))| == |FlightOn(q.inflight, s)|;
    assert |multiset(On(q.led.loc, s))| == |On(q.led.loc, s)|;
  }

  ghost function FlightRefs(inflight: map<Id, Entry>): set<Id> {
    set id | id in inflight && inflight[id].RefEntry?
  }

  lemma LiveBag(q: Queue)
    requires Conserved(q) && Placed(q.refs, q.handRefs, q.inflight, q.led.loc)
    ensures RefBag(q.refs) + RefBag(q.handRefs) + multiset(FlightRefs(q.inflight)) == multiset(q.led.loc.Keys)
  {
    var all := RefBag(q.refs) + RefBag(q.handRefs) + multiset(FlightRefs(q.inflight));
    forall id: Id ensures all[id] == multiset(q.led.loc.Keys)[id] {
      if id in RefBag(q.refs) {
        var r := OutOfRefBag(q.refs, id);
      }
      if id in RefBag(q.handRefs) {
        var r := OutOfRefBag(q.handRefs, id);
      }
      hide RefBag, ItemBag, Fates;
      Once(q, id);
      assert id in q.led.loc ==> HeldAsRef(q.refs, q.handRefs, q.inflight, id);
      if id in q.inflight {
        assert EntryId(q.inflight[id]) == id;
      }
    }
  }

  /** Live WAL references never number more than the reference cap plus the most items ever in
      flight, although a nack puts references back without looking at the cap. */
  lemma ClaimCapLaw(q: Queue)
    requires Inv(q)
    ensures |q.refs| + |q.handRefs| + |FlightRefs(q.inflight)| <= Slots(DiskBudget(q.cfg)) + q.led.peak
    ensures |q.inflight| <= q.led.peak
  {
    hide Conserved, Holding, Fates, Placed, LogInv, Unsettled, TriedAll, Counted, ClaimsExact, FlightRefs;
    LiveBag(q);
    assert |RefBag(q.refs)| == |q.refs| && |RefBag(q.handRefs)| == |q.handRefs|;
    assert |multiset(FlightRefs(q.inflight))| == |FlightRefs(q.inflight)|;
    assert |multiset(q.led.loc.Keys)| == |q.led.loc.Keys| == |q.led.loc|;
  }

  // ---- Attempts ----

  /** An item in flight, whatever attempts it came with or was recovered with, is retired by a
      hand-back exactly when the attempts it came with and the charges so far pass the limit;
      otherwise it goes back with that count. An uncharged hand-back retires exactly the items that
      came with more attempts than the limit and were never charged. */
  lemma AttemptsLaw(q: Queue, id: Id, kind: NackKind)
    requires Inv(q) && id in q.inflight
    ensures id in q.led.start
    ensures var q' := TakeBack(q, id, kind); var charged := Charges(q, id) + ChargeOf(kind);
            var tried := q.led.start[id] + charged;
            && id !in q'.inflight && Charges(q', id) == charged
            && (id in q'.led.dropped + q'.led.unrecorded <==> tried > MAX_ATTEMPTS)
            && (tried <= MAX_ATTEMPTS ==> HandedBack(q, q', id, tried))
            && (ChargeOf(kind) == 0 ==>
                  (tried > MAX_ATTEMPTS <==> q.led.start[id] > MAX_ATTEMPTS && Charges(q, id) == 0))
  {
    hide Inv, TakeBack;
    FlightFacts(q, id);
    FlightNoFate(q, id);
    if AttemptsOf(q.inflight[id]) + ChargeOf(kind) > MAX_ATTEMPTS {
      Retires(q, id, kind);
    } else {
      HandsBack(q, id, kind);
    }
  }

  /** So an item that came with no attempts is retired exactly at its seventh charge, and with a
      attempts at its charge number 7 - a; never by an uncharged hand-back. */
  lemma SeventhCharge(q: Queue, id: Id, kind: NackKind)
    requires Inv(q) && id in q.inflight && id in q.led.start && q.led.start[id] <= MAX_ATTEMPTS
    ensures var q' := TakeBack(q, id, kind);
            && (id in q'.led.dropped + q'.led.unrecorded
                <==> Charges(q', id) == MAX_ATTEMPTS + 1 - q.led.start[id])
            && (id in q'.led.dropped + q'.led.unrecorded ==> ChargeOf(kind) == 1)
  {
    hide Inv, TakeBack;
    AttemptsLaw(q, id, kind);
    FlightFacts(q, id);
  }

  /** An uncharged hand-back that retires: an item enqueued with more attempts than the limit into an
      empty queue without a disk, dequeued, and handed back untried. */
  lemma UntriedRetires(cfg: Config, io: nat -> IO, item: Item, now: int)
    requires item.attempts > MAX_ATTEMPTS && ItemSize(item) <= cfg.maxMemory
    ensures var (q1, res) := Enqueue(FirstStart(cfg, false, io), item); var q2 := Dequeue(q1, 1, 3, now).0;
            && res.Accepted? && item.id in q2.inflight && Charges(q2, item.id) == 0
            && item.id in TakeBack(q2, item.id, NackUntried).led.dropped
            && item.id in TakeBack(q2, item.id, NackSessionEnd).led.dropped
  {
    var q0 := FirstStart(cfg, false, io);
    var q1 := Enqueue(q0, item).0;
    assert q1 == Accept(q0, item) && q1.mem == [item];
    assert DequeueOne(q1) == (PullItem(q1), Some(item));
    assert PullBatch(q1, 1, 2, []) == (PullItem(q1), [item]);
    var q2 := PullItem(q1);
    assert q2.handItems == [item] && q2.handRefs == [] && Compact(q2) == q2;
    assert Register(q2, now) == RegisterItem(q2, now);
  }

  lemma Retires(q: Queue, id: Id, kind: NackKind)
    requires Inv(q) && id in q.inflight && AttemptsOf(q.inflight[id]) + ChargeOf(kind) > MAX_ATTEMPTS
    ensures var q' := TakeBack(q, id, kind);
            && id !in q'.inflight && Charges(q', id) == Charges(q, id) + ChargeOf(kind)
            && (if kind.NackDelivered? then id in q'.led.unrecorded else id in q'.led.dropped)
  {
    hide Inv, TakeBack, RefGone, ItemGone;
    FlightFacts(q, id);
    LessUnflown(q, id);
    RetireIsFate(q, id, kind);
    var q1 := OutOfFlight(q, id);
    if q.inflight[id].RefEntry? {
      HandClaimed(q, id);
      RefGoneShape(q1, RetiredAs(kind), ChargeOf(kind));
    } else {
      ItemGoneShape(q1, RetiredAs(kind), ChargeOf(kind));
    }
  }

  lemma HandClaimed(q: Queue, id: Id)
    requires Inv(q) && id in q.inflight && q.inflight[id].RefEntry?
    ensures Claim(OutOfFlight(q, id), q.inflight[id].ref.segment) > 0
  {
    hide Conserved, Holding, Fates, LogInv, Unsettled, TriedAll, Counted, Bounded, RefBag;
    var ref := q.inflight[id].ref;
    assert At(q.led.loc, ref);
    assert ref.id in On(q.led.loc, ref.segment);
    assert ClaimAt(q.claims, ref.segment) == |On(q.led.loc, ref.segment)|;
  }

  lemma HandsBack(q: Queue, id: Id, kind: NackKind)
    requires Inv(q) && id in q.inflight && AttemptsOf(q.inflight[id]) + ChargeOf(kind) <= MAX_ATTEMPTS
    ensures var q' := TakeBack(q, id, kind);
            && id !in q'.inflight && Charges(q', id) == Charges(q, id) + ChargeOf(kind)
            && q'.led.dropped == q.led.dropped && q'.led.unrecorded == q.led.unrecorded
            && HandedBack(q, q', id, AttemptsOf(q.inflight[id]) + ChargeOf(kind))
  {
    hide Inv;
    FlightFacts(q, id);
  }

  ghost predicate HandedBack(q: Queue, q': Queue, id: Id, charged: int)
    requires id in q.inflight
  {
    match q.inflight[id]
    case RefEntry(ref, _) =>
      q'.handRefs == q.handRefs + [ref.(attempts := charged)] && q'.handItems == q.handItems
    case MemEntry(item, _) =>
      q'.handItems == q.handItems + [item.(attempts := charged)] && q'.handRefs == q.handRefs
  }

  lemma FlightNoFate(q: Queue, id: Id)
    requires Inv(q) && id in q.inflight
    ensures id !in q.led.dropped && id !in q.led.unrecorded
  {
    hide RefBag, ItemBag, Placed, LogInv, Unsettled, TriedAll, Counted, Bounded, ClaimsExact;
    Once(q, id);
  }
}
