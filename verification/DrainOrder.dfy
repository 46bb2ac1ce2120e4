/** What a failed send does to the batch it stood in: who is charged, and in which order the
    disk-sourced items go back. */
module DrainOrder {
  import opened Bytes
  import opened WalCodec
  import opened Wal
  import opened SpillDisk
  import opened QueueModel
  import opened QueueInvariant
  import opened QueueRuns
  import opened QueueTheorems
  import opened QueueFifo
  import opened Flight

  // ---- Charges ----

  lemma RetireCharges(q: Queue, id: Id, e: Entry, delivered: bool)
    ensures Retire(q, id, e, delivered).led.charges == q.led.charges
  {
    hide Settle, Release;
    if e.RefEntry? {
      ReleaseFrame(q, e.ref);
      SettleFrame(Release(q, e.ref), id);
    }
  }

  lemma TakeBackCharges(q: Queue, id: Id, kind: NackKind, x: Id)
    ensures Charges(TakeBack(q, id, kind), x)
            == Charges(q, x) + (if x == id && id in q.inflight then ChargeOf(kind) else 0)
  {
    hide Retire;
    if id in q.inflight {
      var q0 := q.(inflight := q.inflight - {id});
      var q1 := if ChargeOf(kind) == 0 then q0
                else q0.(led := q.led.(charges := q.led.charges[id := Charges(q, id) + 1]));
      RetireCharges(q1, id, q.inflight[id], kind.NackDelivered?);
    }
  }

  lemma {:induction false} TakeBackAllCharges(q: Queue, ids: seq<Id>, kind: NackKind, x: Id)
    ensures Charges(TakeBackAll(q, ids, kind), x)
            == Charges(q, x) + (if x in ids && x in q.inflight then ChargeOf(kind) else 0)
    decreases |ids|
  {
    hide TakeBack;
    if ids != [] {
      TakeBackCharges(q, ids[0], kind, x);
      TakeBackFlight(q, ids[0], kind);
      TakeBackAllCharges(TakeBack(q, ids[0], kind), ids[1..], kind, x);
      assert x in ids <==> x == ids[0] || x in ids[1..];
    }
  }

  lemma {:induction false} ReturnItemsCharges(q: Queue, ok: bool)
    ensures ReturnItems(q, ok).0.led.charges == q.led.charges
    decreases |q.handItems|
  {
    hide ReturnItem;
    if q.handItems != [] {
      ReturnItemCharges(q);
      ReturnShrinks(q);
      ReturnItemsCharges(ReturnItem(q).0, ok && ReturnItem(q).1);
    }
  }

  lemma ReturnItemCharges(q: Queue)
    requires q.handItems != []
    ensures ReturnItem(q).0.led.charges == q.led.charges
  {
    hide SpillItem, RefsFull, CanAccept;
    var n := |q.handItems| - 1;
    SpillCharges(q.(handItems := q.handItems[..n]), q.handItems[n]);
  }

  lemma SpillCharges(q: Queue, item: Item)
    ensures q.store.Some? ==> SpillItem(q, item).0.led.charges == q.led.charges
  {
    hide AppendItem;
  }

  /** A hand-back charges one attempt to exactly the ids it names that are in flight, and only when
      it is of a charging kind. */
  lemma NackCharges(q: Queue, ids: seq<Id>, kind: NackKind, x: Id)
    ensures Charges(Nack(q, ids, kind).0, x)
            == Charges(q, x) + (if !q.closed && x in ids && x in q.inflight then ChargeOf(kind) else 0)
  {
    hide TakeBackAll, ReturnRefs, ReturnItems, Compact;
    TakeBackAllCharges(q, ids, kind, x);
    var q1 := TakeBackAll(q, ids, kind);
    ReturnRefsPath(q1);
    ReturnItemsCharges(ReturnRefs(q1), true);
    CompactFrame(ReturnItems(ReturnRefs(q1), true).0);
  }

  // ---- Order ----

  /** The references are in flight just as they are listed, each once. */
  ghost predicate OutAs(q: Queue, rs: seq<DiskRef>) {
    && (forall i | 0 <= i < |rs| :: FliesAs(q.inflight, rs[i]))
    && (forall i, j | 0 <= i < j < |rs| :: rs[i].id != rs[j].id)
  }

  predicate FliesAs(inflight: map<Id, Entry>, r: DiskRef) {
    r.id in inflight && inflight[r.id].RefEntry? && inflight[r.id].ref == r
  }

  predicate Spared(r: DiskRef, charge: nat) {
    r.attempts + charge <= MAX_ATTEMPTS
  }

  /** What a hand-back with this charge returns of the references, in order. */
  ghost function Kept(rs: seq<DiskRef>, charge: nat): seq<DiskRef> {
    if rs == [] then [] else KeptOne(rs[0], charge) + Kept(rs[1..], charge)
  }

  ghost function KeptOne(r: DiskRef, charge: nat): seq<DiskRef> {
    if Spared(r, charge) then [r.(attempts := r.attempts + charge)] else []
  }

  /** And what it retires. */
  ghost function Retired(rs: seq<DiskRef>, charge: nat): set<Id> {
    set r | r in rs && !Spared(r, charge) :: r.id
  }

  /** With attempts to spare and no charge everything comes back as it was. */
  lemma {:induction false} KeptAll(rs: seq<DiskRef>)
    requires forall r | r in rs :: Spared(r, 0)
    ensures Kept(rs, 0) == rs && Retired(rs, 0) == {}
    decreases |rs|
  {
    if rs != [] {
      assert rs[0] in rs;
      KeptAll(rs[1..]);
      assert rs == [rs[0]] + rs[1..];
    }
  }

  /** Apart from what is handed back, a hand-back changes nothing of these. */
  ghost predicate SameRest(q: Queue, q': Queue, ids: seq<Id>) {
    && q'.refs == q.refs && q'.handItems == q.handItems && q'.closed == q.closed
    && SameFlight(q, q', ids)
  }

  ghost predicate SameFlight(q: Queue, q': Queue, ids: seq<Id>) {
    forall id | id in q.inflight && id !in ids :: id in q'.inflight && q'.inflight[id] == q.inflight[id]
  }

  lemma {:induction false} TakeBackRefs(q: Queue, rs: seq<DiskRef>, kind: NackKind)
    requires OutAs(q, rs)
    ensures var q', charge := TakeBackAll(q, RefIds(rs), kind), ChargeOf(kind);
            && SameRest(q, q', RefIds(rs)) && q'.handRefs == q.handRefs + Kept(rs, charge)
            && (!kind.NackDelivered? ==> q'.led.dropped == q.led.dropped + Retired(rs, charge))
    decreases |rs|
  {
    hide TakeBack, OutAs, FliesAs, KeptOne, Retired, SameRest;
    var charge := ChargeOf(kind);
    if rs == [] {
      NoneTakenBack(q, charge);
    } else {
      OutAsHead(q, rs);
      TakeBackOneRef(q, rs[0], kind);
      var q1 := TakeBack(q, rs[0].id, kind);
      OutAsRest(q, q1, rs);
      TakeBackRefs(q1, rs[1..], kind);
      SameRestMore(q, q1, TakeBackAll(q1, RefIds(rs[1..]), kind), rs);
      RetiredHead(rs, charge);
      Regroup([], q.handRefs, KeptOne(rs[0], charge), Kept(rs[1..], charge));
    }
  }

  lemma NoneTakenBack(q: Queue, charge: nat)
    ensures SameRest(q, q, RefIds([])) && q.handRefs + Kept([], charge) == q.handRefs && Retired([], charge) == {}
  {
  }

  lemma SameRestMore(q: Queue, q1: Queue, q2: Queue, rs: seq<DiskRef>)
    requires rs != [] && SameRest(q, q1, [rs[0].id]) && SameRest(q1, q2, RefIds(rs[1..]))
    requires forall id :: id in RefIds(rs) <==> id == rs[0].id || id in RefIds(rs[1..])
    ensures SameRest(q, q2, RefIds(rs))
  {
    hide RefIds;
  }

  lemma RetiredHead(rs: seq<DiskRef>, charge: nat)
    requires rs != []
    ensures Retired(rs, charge) == Retired([rs[0]], charge) + Retired(rs[1..], charge)
  {
    assert rs == [rs[0]] + rs[1..];
  }

  lemma OutAsHead(q: Queue, rs: seq<DiskRef>)
    requires OutAs(q, rs) && rs != []
    ensures FliesAs(q.inflight, rs[0])
    ensures RefIds(rs) != [] && RefIds(rs)[0] == rs[0].id && RefIds(rs)[1..] == RefIds(rs[1..])
    ensures forall id :: id in RefIds(rs) <==> id == rs[0].id || id in RefIds(rs[1..])
  {
    assert RefIds(rs) == [rs[0].id] + RefIds(rs[1..]);
  }

  lemma OutAsRest(q: Queue, q1: Queue, rs: seq<DiskRef>)
    requires OutAs(q, rs) && rs != [] && q1.inflight == q.inflight - {rs[0].id}
    ensures OutAs(q1, rs[1..])
  {
    forall i | 0 <= i < |rs[1..]| ensures FliesAs(q1.inflight, rs[1..][i]) {
      assert FliesAs(q.inflight, rs[i + 1]) && rs[i + 1].id != rs[0].id;
    }
  }

  lemma TakeBackOneRef(q: Queue, r: DiskRef, kind: NackKind)
    requires FliesAs(q.inflight, r)
    ensures var q', charge := TakeBack(q, r.id, kind), ChargeOf(kind);
            && SameRest(q, q', [r.id]) && q'.handRefs == q.handRefs + KeptOne(r, charge)
            && q'.inflight == q.inflight - {r.id}
            && (!kind.NackDelivered? ==> q'.led.dropped == q.led.dropped + Retired([r], charge))
  {
    hide Retire;
    var q0 := q.(inflight := q.inflight - {r.id});
    var q1 := if ChargeOf(kind) == 0 then q0
              else q0.(led := q.led.(charges := q.led.charges[r.id := Charges(q, r.id) + 1]));
    if Spared(r, ChargeOf(kind)) {
      assert Retired([r], ChargeOf(kind)) == {};
    } else {
      RetiresRef(q1, r, q.inflight[r.id], kind.NackDelivered?);
      assert Retired([r], ChargeOf(kind)) == {r.id};
      assert q.handRefs + [] == q.handRefs;
    }
  }

  lemma RetiresRef(q: Queue, r: DiskRef, e: Entry, delivered: bool)
    requires e.RefEntry? && e.ref == r
    ensures var q' := Retire(q, r.id, e, delivered);
            && q'.refs == q.refs && q'.handItems == q.handItems && q'.handRefs == q.handRefs && q'.closed == q.closed
            && q'.inflight == q.inflight && (!delivered ==> q'.led.dropped == q.led.dropped + {r.id})
  {
    hide Settle, Release;
    ReleaseFrame(q, r);
    SettleFrame(Release(q, r), r.id);
  }

  /** Handing back references puts those with attempts to spare at the front in the order they are
      named, and retires the others. */
  lemma NackRefs(q: Queue, rs: seq<DiskRef>, kind: NackKind)
    requires !q.closed && q.handRefs == [] && q.handItems == [] && OutAs(q, rs)
    ensures var q', charge := Nack(q, RefIds(rs), kind).0, ChargeOf(kind);
            && q'.refs == Kept(rs, charge) + q.refs && !q'.closed && q'.handRefs == [] && q'.handItems == []
            && SameFlight(q, q', RefIds(rs))
            && (!kind.NackDelivered? ==> q'.led.dropped == q.led.dropped + Retired(rs, charge))
  {
    hide TakeBackAll, ReturnRefs, Compact, OutAs, Kept, Retired, SameFlight;
    TakeBackRefs(q, rs, kind);
    var q1 := TakeBackAll(q, RefIds(rs), kind);
    assert [] + Kept(rs, ChargeOf(kind)) == Kept(rs, ChargeOf(kind));
    ReturnRefsPath(q1);
    var q2 := ReturnRefs(q1);
    CompactFrame(q2);
    SameFlightOnly(q, q1, Compact(q2), RefIds(rs));
  }

  lemma SameFlightOnly(q: Queue, a: Queue, b: Queue, ids: seq<Id>)
    requires SameFlight(q, a, ids) && b.inflight == a.inflight
    ensures SameFlight(q, b, ids)
  {
  }

  ghost function AfterFailure(q: Queue, untried: seq<Id>, failed: Id): Queue {
    Nack(AfterUntried(q, untried), [failed], NackFailed).0
  }

  ghost function AfterUntried(q: Queue, untried: seq<Id>): Queue {
    if untried == [] then q else Nack(q, untried, NackUntried).0
  }

  lemma UntriedOrder(q: Queue, rs: seq<DiskRef>)
    requires !q.closed && q.handRefs == [] && q.handItems == [] && OutAs(q, rs)
    ensures var q1 := AfterUntried(q, RefIds(rs));
            && q1.refs == Kept(rs, 0) + q.refs && !q1.closed && q1.handRefs == [] && q1.handItems == []
            && SameFlight(q, q1, RefIds(rs)) && q1.led.dropped == q.led.dropped + Retired(rs, 0)
  {
    hide Nack, OutAs;
    if rs == [] {
      assert [] + q.refs == q.refs;
    } else {
      assert RefIds(rs)[0] == rs[0].id;
      NackRefs(q, rs, NackUntried);
    }
  }

  lemma OutAsFirst(q: Queue, q1: Queue, rs: seq<DiskRef>)
    requires rs != [] && OutAs(q, rs) && SameFlight(q, q1, RefIds(rs[1..]))
    ensures OutAs(q1, [rs[0]]) && RefIds([rs[0]]) == [rs[0].id]
  {
    assert FliesAs(q.inflight, rs[0]) && rs[0].id !in RefIds(rs[1..]);
  }

  /** A send that failed at the front of the listed references: those with attempts to spare go back
      ahead of the queue in their own order, the failed one first and charged; one whose attempts are
      used up, as the failed one's may be by this charge, is dropped. */
  lemma FailureOrder(q: Queue, rs: seq<DiskRef>)
    requires rs != [] && !q.closed && q.handRefs == [] && q.handItems == [] && OutAs(q, rs)
    ensures var q2 := AfterFailure(q, RefIds(rs[1..]), rs[0].id);
            && q2.refs == KeptOne(rs[0], 1) + Kept(rs[1..], 0) + q.refs && !q2.closed
            && q2.led.dropped == q.led.dropped + Retired(rs[1..], 0) + Retired([rs[0]], 1)
            && SameFlight(q, q2, RefIds(rs))
  {
    hide Nack, OutAs, KeptOne, Retired, SameFlight, AfterUntried, RefIds;
    OutAsPart(q, rs, 1);
    UntriedOrder(q, rs[1..]);
    var q1 := AfterUntried(q, RefIds(rs[1..]));
    OutAsFirst(q, q1, rs);
    NackRefs(q1, [rs[0]], NackFailed);
    KeptSingle(rs[0], 1);
    Regroup([], KeptOne(rs[0], 1), Kept(rs[1..], 0), q.refs);
    SameFlightBoth(q, q1, AfterFailure(q, RefIds(rs[1..]), rs[0].id), rs);
  }

  lemma SameFlightBoth(q: Queue, q1: Queue, q2: Queue, rs: seq<DiskRef>)
    requires rs != [] && SameFlight(q, q1, RefIds(rs[1..])) && SameFlight(q1, q2, RefIds([rs[0]]))
    ensures SameFlight(q, q2, RefIds(rs))
  {
    assert RefIds(rs) == RefIds([rs[0]]) + RefIds(rs[1..]);
  }

  lemma KeptSingle(r: DiskRef, charge: nat)
    ensures Kept([r], charge) == KeptOne(r, charge)
  {
    assert [r][1..] == [];
    assert KeptOne(r, charge) + [] == KeptOne(r, charge);
  }

  /** Nobody but the failed item is charged for the failure. */
  lemma FailureCharges(q: Queue, untried: seq<Id>, failed: Id, x: Id)
    requires !q.closed && failed in q.inflight && failed !in untried
    ensures Charges(AfterFailure(q, untried, failed), x) == Charges(q, x) + (if x == failed then 1 else 0)
  {
    hide Nack, Charges;
    if untried != [] {
      NackCharges(q, untried, NackUntried, x);
      NackFlight(q, untried, NackUntried);
    }
    NackCharges(AfterUntried(q, untried), [failed], NackFailed, x);
  }

  // ---- From the dequeue to the failure ----

  /** The pull took the first references into the hand, as the items beyond the batch say. */
  ghost predicate TookRefs(q: Queue, q': Queue, batch: seq<Item>, got: seq<Item>) {
    var m := |got| - |batch|;
    && 0 <= m <= |q.refs| && q'.handRefs == q.handRefs + q.refs[..m] && q'.handItems == q.handItems
    && q'.refs == q.refs[m..] && q'.inflight == q.inflight
    && forall i | 0 <= i < |got| :: got[i].id == if i < |batch| then batch[i].id else q.refs[i - |batch|].id
  }

  lemma TookNone(q: Queue, batch: seq<Item>)
    ensures TookRefs(q, q, batch, batch)
  {
    assert q.handRefs + q.refs[..0] == q.handRefs;
  }

  lemma TookOneMore(q: Queue, q1: Queue, q': Queue, batch: seq<Item>, x: Item, got: seq<Item>)
    requires q.refs != [] && x.id == q.refs[0].id
    requires q1.handRefs == q.handRefs + [q.refs[0]] && q1.handItems == q.handItems && q1.refs == q.refs[1..]
    requires q1.inflight == q.inflight && TookRefs(q1, q', batch + [x], got)
    ensures TookRefs(q, q', batch, got)
  {
    FrontAndRest(q.handRefs, q.refs, |got| - |batch|);
  }

  lemma {:induction false} PullRefs(q: Queue, n: nat, checks: nat, batch: seq<Item>)
    requires Calm(q)
    requires Inv(q)
    requires |PullBatch(q, n, checks, batch).1| <= |batch| + |q.refs|
    ensures var (q', got) := PullBatch(q, n, checks, batch); TookRefs(q, q', batch, got) && Calm(q') && Inv(q')
    decreases checks
  {
    hide Inv, DequeueOne, TookRefs;
    if |batch| >= n || checks == 0 {
      TookNone(q, batch);
    } else if q.refs == [] {
      PullGrows(q, n, checks, batch);
      TookNone(q, batch);
      NothingLeft(q);
    } else {
      PullOneRef(q);
      DequeueOnePath(q);
      PathInv(q, DequeueOne(q).0);
      var (q1, got) := DequeueOne(q);
      PullRefs(q1, n, checks - 1, batch + [got.value]);
      var (q', all) := PullBatch(q, n, checks, batch);
      TookOneMore(q, q1, q', batch, got.value, all);
    }
  }

  lemma FrontAndRest(hand: seq<DiskRef>, refs: seq<DiskRef>, m: nat)
    requires 0 < m <= |refs|
    ensures hand + [refs[0]] + refs[1..][..m - 1] == hand + refs[..m] && refs[1..][m - 1..] == refs[m..]
  {
    assert refs[..m] == [refs[0]] + refs[1..][..m - 1];
  }

  lemma NothingLeft(q: Queue)
    requires q.refs == []
    ensures DequeueOne(q).1.None? ==> DequeueOne(q).0 == q
  {
  }

  /** The pull loop only adds to the batch: an item if there is one to take. */
  lemma {:induction false} PullGrows(q: Queue, n: nat, checks: nat, batch: seq<Item>)
    ensures |PullBatch(q, n, checks, batch).1| >= |batch|
    ensures |batch| < n && checks > 0 && DequeueOne(q).1.Some? ==> |PullBatch(q, n, checks, batch).1| > |batch|
    decreases checks
  {
    hide DequeueOne;
    if |batch| < n && checks > 0 {
      var (q1, got) := DequeueOne(q);
      if got.Some? {
        PullGrows(q1, n, checks - 1, batch + [got.value]);
      }
    }
  }

  lemma PullOneRef(q: Queue)
    requires Calm(q) && q.refs != []
    requires Inv(q)
    ensures var (q', got) := DequeueOne(q);
            && got.Some? && got.value.id == q.refs[0].id && Calm(q')
            && q'.handRefs == q.handRefs + [q.refs[0]] && q'.handItems == q.handItems && q'.refs == q.refs[1..]
            && q'.inflight == q.inflight
  {
    PullRefContents(q);
    hide Inv, Resolve, ReadItem, DropUnreadable, Calm;
  }

  lemma {:induction false} RegisterRefs(q: Queue, now: int, x: DiskRef)
    requires q.handItems == [] && forall i, j | 0 <= i < j < |q.handRefs| :: q.handRefs[i].id != q.handRefs[j].id
    requires x in q.handRefs || (FliesAs(q.inflight, x) && forall r | r in q.handRefs :: r.id != x.id)
    ensures FliesAs(Register(q, now).inflight, x)
    ensures q.handRefs == [] ==> Register(q, now) == q
    decreases |q.handRefs|
  {
    if q.handRefs != [] {
      var q1 := RegisterRef(q, now);
      assert forall r | r in q1.handRefs :: r in q.handRefs;
      if x in q.handRefs && x != q.handRefs[0] {
        assert x in q1.handRefs;
      } else if x == q.handRefs[0] {
        assert FliesAs(q1.inflight, x);
        forall r | r in q1.handRefs ensures r.id != x.id {
          var i :| 0 <= i < |q1.handRefs| && q1.handRefs[i] == r;
          assert q.handRefs[i + 1] == r;
        }
      }
      RegisterRefs(q1, now, x);
    }
  }

  lemma DistinctHands(q: Queue, i: nat, j: nat)
    requires Inv(q) && i < j < |q.handRefs|
    ensures q.handRefs[i].id != q.handRefs[j].id
  {
    hide LogInv, Unsettled, TriedAll, Counted, Bounded, ClaimsExact, Placed, Fates;
    if q.handRefs[i].id == q.handRefs[j].id {
      Once(q, q.handRefs[i].id);
      TwiceInBag(q.handRefs, i, j);
      assert false;
    }
  }

  lemma TwiceInBag(refs: seq<DiskRef>, i: nat, j: nat)
    requires i < j < |refs| && refs[i].id == refs[j].id
    ensures RefBag(refs)[refs[i].id] >= 2
  {
    var ids: seq<Id> := RefIds(refs);
    assert ids == ids[..j] + [ids[j]] + ids[j + 1..];
    assert ids[i] in ids[..j];
    assert multiset(ids[..j])[ids[i]] >= 1;
    var last: seq<Id> := [ids[j]];
    assert multiset(last)[ids[i]] == 1;
  }

  /** The dequeue gave a batch of references only, of whatever length came out. */
  ghost predicate FromDisk(q: Queue, res: DequeueResult) {
    res.Batch? && |res.items| <= |q.refs|
  }

  lemma DequeueSteps(q: Queue, n: int, checks: nat, now: int)
    requires Dequeue(q, n, checks, now).1.Batch?
    ensures n > 0 && checks > 1
    ensures var (q1, batch) := PullBatch(q, n, checks - 1, []);
            Dequeue(q, n, checks, now) == (Register(Compact(q1), now), Batch(batch))
  {
    hide PullBatch, Compact, Register;
  }

  /** References taken in hand with nothing in flight by their ids fly as they are. */
  lemma HandsFly(q: Queue, now: int)
    requires q.handItems == []
    requires Inv(q)
    ensures var q' := Register(q, now); OutAs(q', q.handRefs) && q'.refs == q.refs && q'.closed == q.closed
  {
    hide Inv, Register;
    var rs := q.handRefs;
    forall i, j | 0 <= i < j < |rs| ensures rs[i].id != rs[j].id {
      DistinctHands(q, i, j);
    }
    RegisterFrame(q, now);
    forall i | 0 <= i < |rs| ensures FliesAs(Register(q, now).inflight, rs[i]) {
      RegisterRefs(q, now, rs[i]);
    }
  }

  /** Such a dequeue takes the front references, and flies them as they were. */
  lemma DequeueRefs(q: Queue, n: int, checks: nat, now: int)
    requires Calm(q) && Good(q) && FromDisk(q, Dequeue(q, n, checks, now).1)
    ensures var (q', res) := Dequeue(q, n, checks, now); var m := |res.items|;
            && (forall i | 0 <= i < m :: res.items[i].id == q.refs[i].id)
            && q'.refs == q.refs[m..] && OutAs(q', q.refs[..m]) && !q'.closed && Good(q')
  {
    hide Inv, PullBatch, Compact, Register, Booted, Dequeue, OutAs;
    DequeueSteps(q, n, checks, now);
    PullRefs(q, n, checks - 1, []);
    var (q1, batch) := PullBatch(q, n, checks - 1, []);
    CompactFrame(q1);
    CompactPath(q1);
    PathInv(q1, Compact(q1));
    assert [] + q.refs[..|batch|] == q.refs[..|batch|];
    HandsFly(Compact(q1), now);
    DoKeeps(q, DoDequeue(n, checks, now));
  }

  /** The poison law. A batch taken from disk, however its context cut it, whose k-th send fails goes
      back, from k on, in its original order ahead of the rest of the queue, with one attempt charged
      to the k-th item and to nobody else. The k-th goes back unless this charge was its last: then it
      is dropped, and the rest goes back in order all the same. */
  lemma PoisonLaw(q: Queue, n: int, checks: nat, now: int, k: nat, x: Id)
    requires Calm(q) && Good(q) && FromDisk(q, Dequeue(q, n, checks, now).1)
    requires k < |Dequeue(q, n, checks, now).1.items|
    ensures var (q1, res) := Dequeue(q, n, checks, now); var m := |res.items|;
            var poison, rest := q.refs[k], q.refs[k + 1..m];
            var q2 := AfterFailure(q1, RefIds(rest), poison.id);
            && q2.refs == KeptOne(poison, 1) + Kept(rest, 0) + q.refs[m..]
            && q2.led.dropped == q1.led.dropped + Retired(rest, 0) + Retired([poison], 1)
            && ((forall r | r in rest :: Spared(r, 0)) ==> q2.refs == KeptOne(poison, 1) + q.refs[k + 1..])
            && Charges(q2, x) == Charges(q1, x) + (if x == poison.id then 1 else 0)
  {
    hide Inv, Good, Dequeue, AfterFailure, Calm, Charges, KeptOne, Kept, Retired, Spared, OutAs, RefIds;
    DequeueRefs(q, n, checks, now);
    var (q1, res) := Dequeue(q, n, checks, now);
    var m := |res.items|;
    HandsOf(q1);
    OutAsPart(q1, q.refs[..m], k);
    FromPoison(q.refs, k, m);
    FailureOrder(q1, q.refs[k..m]);
    FirstCharged(q1, q.refs[k..m], x);
    if forall r | r in q.refs[k + 1..m] :: Spared(r, 0) {
      KeptAll(q.refs[k + 1..m]);
      Assoc(KeptOne(q.refs[k], 1), q.refs[k + 1..m], q.refs[m..]);
    }
  }

  lemma FromPoison(refs: seq<DiskRef>, k: nat, n: nat)
    requires k < n <= |refs|
    ensures var rs := refs[k..n]; refs[..n][k..] == rs && rs[0] == refs[k] && rs[1..] == refs[k + 1..n]
    ensures refs[k + 1..] == refs[k + 1..n] + refs[n..]
  {
  }

  lemma FirstCharged(q: Queue, rs: seq<DiskRef>, x: Id)
    requires rs != [] && !q.closed && OutAs(q, rs)
    ensures Charges(AfterFailure(q, RefIds(rs[1..]), rs[0].id), x)
            == Charges(q, x) + (if x == rs[0].id then 1 else 0)
  {
    hide AfterFailure, Charges;
    assert FliesAs(q.inflight, rs[0]);
    FailureCharges(q, RefIds(rs[1..]), rs[0].id, x);
  }

  lemma OutAsPart(q: Queue, rs: seq<DiskRef>, k: nat)
    requires OutAs(q, rs) && k <= |rs|
    ensures OutAs(q, rs[k..])
  {
    forall i | 0 <= i < |rs[k..]| ensures FliesAs(q.inflight, rs[k..][i]) {
      assert FliesAs(q.inflight, rs[k + i]);
    }
  }

  lemma HandsOf(q: Queue)
    requires Good(q)
    ensures q.handRefs == [] && q.handItems == []
  {
  }
}
