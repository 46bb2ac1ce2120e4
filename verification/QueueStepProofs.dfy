/** Every step of the queue keeps its invariant, one lemma per step. */
module QueueStepProofs {
  import opened Bytes
  import opened WalCodec
  import opened Wal
  import opened SpillDisk
  import opened WalLog
  import opened QueueModel
  import opened QueueInvariant
  import opened QueueSteps

  /** A live disk item is held, so it is neither stale nor durably settled. */
  lemma LocHeld(q: Queue, id: Id)
    requires Placed(q.refs, q.handRefs, q.inflight, q.led.loc)
    requires Unsettled(Holding(q), q.led.durable, q.led.stale, q.led.accepted, q.led.seen)
    requires id in q.led.loc
    ensures id in Holding(q) && id !in q.led.stale && id !in q.led.durable
  {
    assert HeldAsRef(q.refs, q.handRefs, q.inflight, id);
  }

  lemma HandItemHeld(q: Queue)
    requires q.handItems != []
    ensures ItemBag(q.handItems) == ItemBag(LessItem(q).handItems) + multiset{HandItem(q).id}
    ensures HandItem(q).id in Holding(q)
  {
    var n := |q.handItems| - 1;
    ItemBagPush(q.handItems[n], q.handItems[..n]);
    assert q.handItems == q.handItems[..n] + [q.handItems[n]];
  }

  lemma HandRefHeld(q: Queue)
    requires q.handRefs != []
    ensures RefBag(q.handRefs) == RefBag(LessRef(q).handRefs) + multiset{HandRef(q).id}
    ensures HandRef(q).id in Holding(q)
  {
    var n := |q.handRefs| - 1;
    RefBagPush(q.handRefs[n], q.handRefs[..n]);
    assert q.handRefs == q.handRefs[..n] + [q.handRefs[n]];
  }

  lemma CountedSame(q: Queue, b: Queue)
    requires q.cfg == b.cfg && q.mem == b.mem && q.memBytes == b.memBytes && q.memCount == b.memCount
    requires q.refs == b.refs && q.diskCount == b.diskCount
    ensures Counted(q) <==> Counted(b)
  {
  }

  lemma BoundedSame(q: Queue, b: Queue)
    requires q.cfg == b.cfg && q.inflight == b.inflight && q.led.loc == b.led.loc && q.led.peak == b.led.peak
    ensures Bounded(q) <==> Bounded(b)
  {
  }

  // ---- Moves that touch only memory ----

  lemma GrabKeeps(q: Queue)
    requires Inv(q) && q.mem != []
    ensures Inv(PullItem(q))
  {
    hide LogInv, ClaimsExact, Placed, Unsettled, RefBag, ItemBag, SumSizes, EntriesOk, RefsOk, Bounded;
    var q' := PullItem(q);
    ItemBagHead(q.mem);
    ItemBagPush(q.mem[0], q.handItems);
    SumSizesHead(q.mem);
    assert Holding(q') == Holding(q);
    BoundedSame(q, q');
  }

  lemma StowKeeps(q: Queue)
    requires Inv(q) && q.handItems != [] && CanAccept(q, ItemSize(HandItem(q)))
    ensures Inv(Put(LessItem(q), HandItem(q)))
  {
    hide LogInv, ClaimsExact, Placed, Unsettled, RefBag, ItemBag, SumSizes, EntriesOk, RefsOk, Bounded;
    var q' := Put(LessItem(q), HandItem(q));
    HandItemHeld(q);
    ItemBagPush(HandItem(q), q.mem);
    SumSizesPush(HandItem(q), q.mem);
    assert Holding(q') == Holding(q);
    BoundedSame(q, q');
  }

  lemma StowFrontKeeps(q: Queue)
    requires Inv(q) && q.handItems != [] && CanAccept(q, ItemSize(HandItem(q)))
    ensures Inv(PutFront(LessItem(q), HandItem(q)))
  {
    hide LogInv, ClaimsExact, Placed, Unsettled, RefBag, ItemBag, SumSizes, EntriesOk, RefsOk, Reverse, Bounded;
    var q' := PutFront(LessItem(q), HandItem(q));
    HandItemHeld(q);
    ReverseKeeps(q.mem);
    ItemBagPush(HandItem(q), Reverse(q.mem));
    SumSizesPush(HandItem(q), Reverse(q.mem));
    assert Holding(q') == Holding(q);
    BoundedSame(q, q');
  }

  /** The attempt records of two ledgers differ at one id at most. */
  ghost predicate SameBut(a: Ledger, b: Ledger, id: Id) {
    && (forall x | x in a.start && x != id :: x in b.start && b.start[x] == a.start[x])
    && (forall x | x in a.charges && x != id :: x in b.charges && b.charges[x] == a.charges[x])
  }

  lemma ItemsElsewhere(items: seq<Item>, a: Ledger, b: Ledger, id: Id)
    requires ItemsOk(items, a.start, a.charges) && SameBut(a, b, id) && id !in ItemBag(items)
    ensures ItemsOk(items, b.start, b.charges)
  {
    hide ItemBag;
    forall x | x in items ensures x.id != id {
      InItemBag(items, x);
    }
  }

  lemma RefsElsewhere(refs: seq<DiskRef>, a: Ledger, b: Ledger, id: Id)
    requires RefsOk(refs, a.start, a.charges) && SameBut(a, b, id) && id !in RefBag(refs)
    ensures RefsOk(refs, b.start, b.charges)
  {
    hide RefBag;
    forall r | r in refs ensures r.id != id {
      InRefBag(refs, r);
    }
  }

  /** What happens to the attempt record of an id held nowhere disturbs nothing held. */
  lemma TriedElsewhere(q: Queue, b: Ledger, id: Id)
    requires TriedAll(q) && SameBut(q.led, b, id) && id !in Holding(q)
    ensures TriedAll(q.(led := b))
  {
    hide RefBag, ItemBag, ItemsOk, RefsOk, SameBut;
    ItemsElsewhere(q.mem, q.led, b, id);
    ItemsElsewhere(q.handItems, q.led, b, id);
    RefsElsewhere(q.refs, q.led, b, id);
    RefsElsewhere(q.handRefs, q.led, b, id);
    EntriesElsewhere(q.inflight, q.led, b, id);
  }

  lemma EntriesElsewhere(inflight: map<Id, Entry>, a: Ledger, b: Ledger, id: Id)
    requires EntriesOk(inflight, a.start, a.charges) && SameBut(a, b, id) && id !in inflight
    ensures EntriesOk(inflight, b.start, b.charges)
  {
  }

  lemma HeldAccepted(q: Queue, id: Id)
    requires Conserved(q) && id in Holding(q)
    ensures id in q.led.accepted
  {
    assert (Holding(q) + Fates(q.led))[id] > 0;
  }

  lemma FreshHolding(q: Queue, item: Item)
    ensures Holding(Admit(q.(handItems := q.handItems + [item]), item)) == Holding(q) + multiset{item.id}
  {
    hide RefBag, ItemBag;
    ItemBagPush(item, q.handItems);
  }

  lemma FreshKeeps(q: Queue, item: Item)
    requires Inv(q) && item.id !in q.led.seen && Fits(item)
    ensures Inv(Admit(q.(handItems := q.handItems + [item]), item))
  {
    hide Holding, LogInv, ClaimsExact, Placed, RefBag, ItemBag, SumSizes, ItemsOk, RefsOk, EntriesOk, Counted, Bounded;
    var q' := Admit(q.(handItems := q.handItems + [item]), item);
    FreshHolding(q, item);
    if item.id in Holding(q) {
      HeldAccepted(q, item.id);
    }
    TriedElsewhere(q, q'.led, item.id);
    ItemsOkPush(q.handItems, item, q'.led.start, q'.led.charges);
    SetBag(q.led.accepted, item.id);
    CountedSame(q, q');
    BoundedSame(q, q');
  }

  lemma ItemsOkPush(items: seq<Item>, x: Item, start: map<Id, int>, charges: map<Id, nat>)
    requires ItemsOk(items, start, charges) && Fits(x) && Tried(start, charges, x.id, x.attempts)
    ensures ItemsOk(items + [x], start, charges)
  {
  }

  lemma RefsOkPush(refs: seq<DiskRef>, r: DiskRef, start: map<Id, int>, charges: map<Id, nat>)
    requires RefsOk(refs, start, charges) && |r.id| <= MAX_ID && Tried(start, charges, r.id, r.attempts)
    ensures RefsOk(refs + [r], start, charges)
    ensures RefsOk([r] + refs, start, charges)
  {
  }

  // ---- An item's last moments ----

  lemma FatesAdd(led: Ledger, id: Id)
    requires Fates(led)[id] == 0
    ensures Fates(led.(acked := led.acked + {id})) == Fates(led) + multiset{id}
    ensures Fates(led.(dropped := led.dropped + {id})) == Fates(led) + multiset{id}
    ensures Fates(led.(unrecorded := led.unrecorded + {id})) == Fates(led) + multiset{id}
    ensures Fates(led.(lost := led.lost + {id})) == Fates(led) + multiset{id}
    ensures |led.dropped + {id}| == |led.dropped| + 1
    ensures |led.unrecorded + {id}| == |led.unrecorded| + 1
  {
    SetBag(led.acked, id);
    SetBag(led.dropped, id);
    SetBag(led.unrecorded, id);
    SetBag(led.lost, id);
  }

  /** Moving one held id to its fate keeps the count of every item. */
  lemma FateConserves(q: Queue, id: Id, fate: Fate)
    requires Holding(q) + multiset{id} + Fates(q.led) == multiset(q.led.accepted)
    requires q.droppedTotal == |q.led.dropped| && q.unrecordedTotal == |q.led.unrecorded|
    ensures Conserved(MarkFate(q, id, fate))
  {
    hide Holding, Fates;
    FateFree(Holding(q), Fates(q.led), q.led.accepted, id);
    FatesAdd(q.led, id);
    MarkFateHolding(q, id, fate);
  }

  lemma FateFree(held: multiset<Id>, fates: multiset<Id>, accepted: set<Id>, id: Id)
    requires held + multiset{id} + fates == multiset(accepted)
    ensures fates[id] == 0
    ensures held + (fates + multiset{id}) == multiset(accepted)
  {
    assert (held + multiset{id} + fates)[id] == multiset(accepted)[id];
  }

  lemma LessItemHolding(q: Queue)
    requires Conserved(q) && q.handItems != []
    ensures Holding(q) == Holding(LessItem(q)) + multiset{HandItem(q).id}
    ensures HandItem(q).id !in Holding(LessItem(q))
  {
    HandItemHeld(q);
    hide RefBag, ItemBag;
    assert Holding(q) == Holding(LessItem(q)) + multiset{HandItem(q).id};
    hide Holding;
    Once(q, HandItem(q).id);
  }

  lemma LessRefHolding(q: Queue)
    requires Conserved(q) && q.handRefs != []
    ensures Holding(q) == Holding(LessRef(q)) + multiset{HandRef(q).id}
    ensures HandRef(q).id !in Holding(LessRef(q))
  {
    HandRefHeld(q);
    hide RefBag, ItemBag;
    assert Holding(q) == Holding(LessRef(q)) + multiset{HandRef(q).id};
    hide Holding;
    Once(q, HandRef(q).id);
  }

  /** What is held does not depend on the books. */
  lemma HoldingOnly(q: Queue, b: Queue)
    requires q.refs == b.refs && q.handRefs == b.handRefs && q.handItems == b.handItems
    requires q.mem == b.mem && q.inflight == b.inflight
    ensures Holding(q) == Holding(b)
  {
  }

  lemma ItemGoneShape(q: Queue, fate: Fate, charge: nat)
    requires q.handItems != []
    ensures var id := HandItem(q).id; var q' := ItemGone(q, fate, charge);
            && q' == q.(handItems := LessItem(q).handItems, led := q'.led,
                        droppedTotal := q'.droppedTotal, unrecordedTotal := q'.unrecordedTotal)
            && q'.led == q.led.(acked := q'.led.acked, dropped := q'.led.dropped, unrecorded := q'.led.unrecorded,
                                lost := q'.led.lost, charges := q'.led.charges)
            && q'.led.charges == (if charge == 0 then q.led.charges else q.led.charges[id := Charges(q, id) + charge])
            && q'.led.acked == (if fate.FateAcked? then q.led.acked + {id} else q.led.acked)
            && q'.led.lost == (if fate.FateLost? then q.led.lost + {id} else q.led.lost)
            && q'.led.dropped == (if fate.FateDropped? then q.led.dropped + {id} else q.led.dropped)
            && q'.led.unrecorded == (if fate.FateUnrecorded? then q.led.unrecorded + {id} else q.led.unrecorded)
  {
    hide MarkFate;
    MarkFateShape(Charged(LessItem(q), HandItem(q).id, charge), HandItem(q).id, fate);
  }

  lemma ItemGoneBooks(q: Queue, fate: Fate, charge: nat)
    requires q.handItems != [] && Conserved(q)
    ensures Conserved(ItemGone(q, fate, charge))
    ensures Holding(ItemGone(q, fate, charge)) == Holding(LessItem(q))
  {
    hide Holding, Fates, Charged, MarkFate;
    var id := HandItem(q).id;
    var q1 := LessItem(q);
    LessItemHolding(q);
    ChargedBooks(q1, id, charge);
    FateConserves(Charged(q1, id, charge), id, fate);
    MarkFateHolding(Charged(q1, id, charge), id, fate);
  }

  lemma ItemFateKeeps(q: Queue, fate: Fate, charge: nat)
    requires q.handItems != []
    requires Inv(q)
    ensures Inv(ItemGone(q, fate, charge))
  {
    hide Conserved, Holding, Fates, LogInv, ClaimsExact, Placed, RefBag, ItemBag, SumSizes, RefsOk, EntriesOk,
         Counted, Bounded, ItemGone;
    var q1 := LessItem(q);
    var q' := ItemGone(q, fate, charge);
    ItemGoneShape(q, fate, charge);
    ItemGoneBooks(q, fate, charge);
    LessItemHolding(q);
    HandUnsettled(q);
    TriedElsewhere(q1, q'.led, HandItem(q).id);
    TriedOnly(q1.(led := q'.led), q');
    CountedSame(q, q');
    BoundedSame(q, q');
  }

  lemma FatesOnly(a: Ledger, b: Ledger)
    requires a.acked == b.acked && a.dropped == b.dropped && a.unrecorded == b.unrecorded && a.lost == b.lost
    ensures Fates(a) == Fates(b)
  {
  }

  // ---- References ----

  lemma GrabRefHolding(q: Queue)
    requires q.refs != []
    ensures RefBag(q.refs) + RefBag(q.handRefs) == RefBag(RefToHand(q).refs) + RefBag(RefToHand(q).handRefs)
    ensures Holding(RefToHand(q)) == Holding(q)
  {
    hide RefBag, ItemBag;
    RefBagHead(q.refs);
    RefBagPush(q.refs[0], q.handRefs);
  }

  lemma GrabRefKeeps(q: Queue)
    requires Inv(q) && q.refs != []
    ensures Inv(RefToHand(q))
  {
    hide Holding, Fates, LogInv, ClaimsExact, Placed, Unsettled, RefBag, ItemBag, SumSizes, EntriesOk, ItemsOk, Bounded;
    var q' := RefToHand(q);
    GrabRefHolding(q);
    PlacedMove(q.refs, q.handRefs, q'.refs, q'.handRefs, q.inflight, q.led.loc);
    BoundedSame(q, q');
  }

  /** Passing references between the queue and the hand leaves each where its record is. */
  lemma PlacedMove(refs: seq<DiskRef>, hand: seq<DiskRef>, refs': seq<DiskRef>, hand': seq<DiskRef>,
                   inflight: map<Id, Entry>, loc: map<Id, Loc>)
    requires Placed(refs, hand, inflight, loc)
    requires RefBag(refs) + RefBag(hand) == RefBag(refs') + RefBag(hand')
    requires forall r | r in refs' || r in hand' :: r in refs || r in hand
    ensures Placed(refs', hand', inflight, loc)
  {
    hide RefBag;
    forall id | id in loc ensures HeldAsRef(refs', hand', inflight, id) {
      assert HeldAsRef(refs, hand, inflight, id);
      assert id in RefBag(refs) + RefBag(hand) ==> id in RefBag(refs') + RefBag(hand');
    }
  }

  lemma ReturnRefHolding(q: Queue)
    requires q.handRefs != []
    ensures var q' := QueueModel.ReturnRef(q);
            && RefBag(q.refs) + RefBag(q.handRefs) == RefBag(q'.refs) + RefBag(q'.handRefs)
            && Holding(q') == Holding(q)
  {
    hide RefBag, ItemBag;
    HandRefHeld(q);
    RefBagPush(HandRef(q), q.refs);
  }

  lemma ReturnRefKeeps(q: Queue)
    requires Inv(q) && q.handRefs != []
    ensures Inv(QueueModel.ReturnRef(q))
  {
    hide Holding, Fates, LogInv, ClaimsExact, Placed, Unsettled, RefBag, ItemBag, SumSizes, EntriesOk, ItemsOk, Bounded;
    var q' := QueueModel.ReturnRef(q);
    ReturnRefHolding(q);
    PlacedMove(q.refs, q.handRefs, q'.refs, q'.handRefs, q.inflight, q.led.loc);
    BoundedSame(q, q');
  }

  // ---- In and out of flight ----

  lemma KeysAdd(m: map<Id, Entry>, id: Id, e: Entry)
    requires id !in m
    ensures multiset(m[id := e].Keys) == multiset(m.Keys) + multiset{id}
    ensures |m[id := e]| == |m| + 1
  {
    SetBag(m.Keys, id);
    assert m[id := e].Keys == m.Keys + {id};
    assert |m[id := e]| == |m[id := e].Keys| && |m| == |m.Keys|;
  }

  /** One id leaves one bag for another. */
  lemma Shift(a: multiset<Id>, a': multiset<Id>, b: multiset<Id>, b': multiset<Id>, rest: multiset<Id>, id: Id)
    requires a == multiset{id} + a' && b' == b + multiset{id}
    ensures a + b + rest == a' + b' + rest
  {
  }

  lemma NotInFlight(q: Queue, id: Id)
    requires Conserved(q) && (id in RefBag(q.handRefs) || id in ItemBag(q.handItems))
    ensures id !in q.inflight
  {
    hide RefBag, ItemBag, Fates;
    Once(q, id);
    var hands := RefBag(q.handRefs) + ItemBag(q.handItems);
    assert Holding(q)[id] == RefBag(q.refs)[id] + hands[id] + ItemBag(q.mem)[id] + multiset(q.inflight.Keys)[id];
  }

  lemma ToFlightRefHolding(q: Queue, now: int)
    requires Conserved(q) && q.handRefs != []
    ensures q.handRefs[0].id !in q.inflight
    ensures Holding(RegisterRef(q, now)) == Holding(q)
  {
    hide RefBag, ItemBag;
    var r := q.handRefs[0];
    var q' := RegisterRef(q, now);
    RefBagHead(q.handRefs);
    NotInFlight(q, r.id);
    hide Conserved;
    KeysAdd(q.inflight, r.id, RefEntry(r, now));
    Shift(RefBag(q.handRefs), RefBag(q'.handRefs), multiset(q.inflight.Keys), multiset(q'.inflight.Keys),
          RefBag(q.refs) + ItemBag(q.handItems) + ItemBag(q.mem), r.id);
  }

  lemma PlacedToFlight(refs: seq<DiskRef>, hand: seq<DiskRef>, inflight: map<Id, Entry>, loc: map<Id, Loc>, now: int)
    requires Placed(refs, hand, inflight, loc) && hand != [] && hand[0].id !in inflight
    ensures Placed(refs, hand[1..], inflight[hand[0].id := RefEntry(hand[0], now)], loc)
  {
    hide RefBag;
    RefBagHead(hand);
    var inflight' := inflight[hand[0].id := RefEntry(hand[0], now)];
    forall id | id in loc ensures HeldAsRef(refs, hand[1..], inflight', id) {
      assert HeldAsRef(refs, hand, inflight, id);
    }
  }

  lemma ToFlightRefKeeps(q: Queue, now: int)
    requires Inv(q) && q.handRefs != []
    ensures Inv(RegisterRef(q, now))
  {
    hide Holding, Fates, LogInv, ClaimsExact, Placed, Unsettled, RefBag, ItemBag, SumSizes, ItemsOk, Counted;
    ToFlightRefHolding(q, now);
    FatesOnly(RegisterRef(q, now).led, q.led);
    PlacedToFlight(q.refs, q.handRefs, q.inflight, q.led.loc, now);
    KeysAdd(q.inflight, q.handRefs[0].id, RefEntry(q.handRefs[0], now));
    CountedSame(q, RegisterRef(q, now));
  }

  lemma ToFlightItemHolding(q: Queue, now: int)
    requires Conserved(q) && q.handItems != []
    ensures q.handItems[0].id !in q.inflight
    ensures Holding(RegisterItem(q, now)) == Holding(q)
  {
    hide RefBag, ItemBag;
    var x := q.handItems[0];
    var q' := RegisterItem(q, now);
    ItemBagHead(q.handItems);
    NotInFlight(q, x.id);
    hide Conserved;
    KeysAdd(q.inflight, x.id, MemEntry(x, now));
    Shift(ItemBag(q.handItems), ItemBag(q'.handItems), multiset(q.inflight.Keys), multiset(q'.inflight.Keys),
          RefBag(q.refs) + RefBag(q.handRefs) + ItemBag(q.mem), x.id);
  }

  lemma PlacedItem(refs: seq<DiskRef>, hand: seq<DiskRef>, inflight: map<Id, Entry>, loc: map<Id, Loc>, x: Item,
      now: int)
    requires Placed(refs, hand, inflight, loc) && x.id !in inflight
    ensures Placed(refs, hand, inflight[x.id := MemEntry(x, now)], loc)
  {
    hide RefBag;
    var inflight' := inflight[x.id := MemEntry(x, now)];
    forall id | id in loc ensures HeldAsRef(refs, hand, inflight', id) {
      assert HeldAsRef(refs, hand, inflight, id);
    }
  }

  lemma ToFlightItemKeeps(q: Queue, now: int)
    requires Inv(q) && q.handItems != []
    ensures Inv(RegisterItem(q, now))
  {
    hide Holding, Fates, LogInv, ClaimsExact, Placed, Unsettled, RefBag, ItemBag, SumSizes, RefsOk, Counted;
    ToFlightItemHolding(q, now);
    FatesOnly(RegisterItem(q, now).led, q.led);
    PlacedItem(q.refs, q.handRefs, q.inflight, q.led.loc, q.handItems[0], now);
    KeysAdd(q.inflight, q.handItems[0].id, MemEntry(q.handItems[0], now));
    CountedSame(q, RegisterItem(q, now));
  }

  lemma FromFlightHolding(q: Queue, id: Id)
    requires id in q.inflight && EntryId(q.inflight[id]) == id
    ensures Holding(OutOfFlight(q, id)) == Holding(q)
    ensures |OutOfFlight(q, id).inflight| == |q.inflight| - 1
  {
    hide RefBag, ItemBag;
    var rest := q.inflight - {id};
    var e := q.inflight[id];
    KeysAdd(rest, id, e);
    assert rest[id := e] == q.inflight;
    match e {
      case RefEntry(ref, _) => RefBagPush(ref, q.handRefs);
      case MemEntry(item, _) => ItemBagPush(item, q.handItems);
    }
  }

  lemma PlacedFromFlight(q: Queue, id: Id)
    requires Placed(q.refs, q.handRefs, q.inflight, q.led.loc) && id in q.inflight
    ensures var q' := OutOfFlight(q, id); Placed(q'.refs, q'.handRefs, q'.inflight, q'.led.loc)
  {
    hide RefBag;
    var q' := OutOfFlight(q, id);
    if q.inflight[id].RefEntry? {
      RefBagPush(q.inflight[id].ref, q.handRefs);
    }
    forall x | x in q.led.loc ensures HeldAsRef(q'.refs, q'.handRefs, q'.inflight, x) {
      assert HeldAsRef(q.refs, q.handRefs, q.inflight, x);
      assert x != id ==> (x in q.inflight <==> x in q'.inflight);
    }
  }

  lemma TriedFromFlight(q: Queue, id: Id)
    requires TriedAll(q) && id in q.inflight && EntryId(q.inflight[id]) == id
    ensures TriedAll(OutOfFlight(q, id))
  {
    var e := q.inflight[id];
    assert Tried(q.led.start, q.led.charges, id, AttemptsOf(e));
    match e {
      case RefEntry(ref, _) => RefsOkPush(q.handRefs, ref, q.led.start, q.led.charges);
      case MemEntry(item, _) => ItemsOkPush(q.handItems, item, q.led.start, q.led.charges);
    }
  }

  lemma KeyIsId(q: Queue, id: Id)
    requires Placed(q.refs, q.handRefs, q.inflight, q.led.loc) && id in q.inflight
    ensures EntryId(q.inflight[id]) == id
  {
  }

  lemma FromFlightKeeps(q: Queue, id: Id)
    requires Inv(q) && id in q.inflight
    ensures Inv(OutOfFlight(q, id))
  {
    hide Holding, Fates, LogInv, ClaimsExact, Placed, Unsettled, RefBag, ItemBag, SumSizes, TriedAll, Counted;
    assert EntryId(q.inflight[id]) == id by { KeyIsId(q, id); }
    FromFlightHolding(q, id);
    PlacedFromFlight(q, id);
    TriedFromFlight(q, id);
    CountedSame(q, OutOfFlight(q, id));
  }

  // ---- Charging an attempt ----

  lemma ChargeRefKeeps(q: Queue)
    requires Inv(q) && q.handRefs != [] && HandRef(q).attempts < MAX_ATTEMPTS
    ensures Inv(RefCharged(q))
  {
    hide Holding, Fates, LogInv, ClaimsExact, Placed, Unsettled, RefBag, ItemBag, SumSizes, ItemsOk, RefsOk,
        EntriesOk, Counted, Bounded;
    var r := HandRef(q);
    var r' := r.(attempts := r.attempts + 1);
    var q1 := LessRef(q);
    var q' := RefCharged(q);
    LessRefHolding(q);
    assert Tried(q.led.start, q.led.charges, r.id, r.attempts)
        && |r.id| <= MAX_ID by { RefTried(q.handRefs, r, q.led); }
    assert RefsOk(q1.handRefs, q.led.start, q.led.charges) by { RefsFront(q.handRefs, q.led); }
    TriedElsewhere(q1, q'.led, r.id);
    RefsOkPush(q1.handRefs, r', q'.led.start, q'.led.charges);
    SameIds(q, r');
    HoldingOnly(q', q.(handRefs := q1.handRefs + [r']));
    FatesOnly(q'.led, q.led);
    CountedSame(q, q');
    BoundedSame(q, q');
  }

  lemma RefTried(refs: seq<DiskRef>, r: DiskRef, led: Ledger)
    requires RefsOk(refs, led.start, led.charges) && r in refs
    ensures |r.id| <= MAX_ID && Tried(led.start, led.charges, r.id, r.attempts)
  {
  }

  lemma RefsFront(refs: seq<DiskRef>, led: Ledger)
    requires RefsOk(refs, led.start, led.charges) && refs != []
    ensures RefsOk(refs[..|refs| - 1], led.start, led.charges)
  {
  }

  /** Replacing the hand reference by one to the same record moves nothing. */
  lemma SameIds(q: Queue, r': DiskRef)
    requires q.handRefs != [] && Placed(q.refs, q.handRefs, q.inflight, q.led.loc)
    requires r' == HandRef(q).(attempts := r'.attempts)
    ensures var q' := q.(handRefs := LessRef(q).handRefs + [r']);
            && Placed(q'.refs, q'.handRefs, q'.inflight, q'.led.loc)
            && Holding(q') == Holding(q)
  {
    var hand' := LessRef(q).handRefs + [r'];
    assert RefIds(hand') == RefIds(q.handRefs);
    assert RefBag(hand') == RefBag(q.handRefs);
    hide RefBag;
    forall id | id in q.led.loc ensures HeldAsRef(q.refs, hand', q.inflight, id) {
      assert HeldAsRef(q.refs, q.handRefs, q.inflight, id);
    }
    assert forall r | r in hand' :: r == r' || r in q.handRefs;
    assert At(q.led.loc, HandRef(q));
  }

  lemma ChargeItemKeeps(q: Queue)
    requires Inv(q) && q.handItems != [] && HandItem(q).attempts < MAX_ATTEMPTS
    ensures Inv(ItemCharged(q))
  {
    hide Holding, Fates, LogInv, ClaimsExact, Placed, Unsettled, RefBag, ItemBag, SumSizes, RefsOk, EntriesOk,
        Counted, Bounded;
    var x := HandItem(q);
    var x' := x.(attempts := x.attempts + 1);
    var q1 := LessItem(q);
    var q' := ItemCharged(q);
    LessItemHolding(q);
    TriedElsewhere(q1, q'.led, x.id);
    ItemsOkPush(q1.handItems, x', q'.led.start, q'.led.charges);
    SameItemIds(q, x');
    HoldingOnly(q', q.(handItems := q1.handItems + [x']));
    FatesOnly(q'.led, q.led);
    CountedSame(q, q');
    BoundedSame(q, q');
  }

  lemma SameItemIds(q: Queue, x': Item)
    requires q.handItems != [] && x'.id == HandItem(q).id
    ensures Holding(q.(handItems := LessItem(q).handItems + [x'])) == Holding(q)
  {
    assert ItemIdsOf(LessItem(q).handItems + [x']) == ItemIdsOf(q.handItems);
  }

  // ---- Spilling ----

  /** No more claims are held than there are references and items in flight. */
  lemma LocBound(q: Queue)
    requires Placed(q.refs, q.handRefs, q.inflight, q.led.loc)
    ensures |q.led.loc| <= |q.refs| + |q.handRefs| + |q.inflight|
  {
    hide RefBag;
    var a := RefBagSize(q.refs);
    var b := RefBagSize(q.handRefs);
    forall id | id in q.led.loc ensures id in a + b + q.inflight.Keys {
      assert HeldAsRef(q.refs, q.handRefs, q.inflight, id);
    }
    assert q.led.loc.Keys <= a + b + q.inflight.Keys;
    SubsetSize(q.led.loc.Keys, a + b + q.inflight.Keys);
    assert |q.led.loc| == |q.led.loc.Keys| && |q.inflight| == |q.inflight.Keys|;
  }

  lemma HandItemUnplaced(q: Queue)
    requires Conserved(q) && Placed(q.refs, q.handRefs, q.inflight, q.led.loc) && q.handItems != []
    ensures HandItem(q).id !in q.led.loc
  {
    var id := HandItem(q).id;
    LessItemHolding(q);
    assert id in q.led.loc ==> HeldAsRef(q.refs, q.handRefs, q.inflight, id);
  }

  lemma PlacedAdd(refs: seq<DiskRef>, hand: seq<DiskRef>, inflight: map<Id, Entry>, loc: map<Id, Loc>, r: DiskRef)
    requires Placed(refs, hand, inflight, loc) && r.id !in loc
    ensures Placed(refs + [r], hand, inflight, loc[r.id := Loc(r.segment, r.offset)])
  {
    RefBagPush(r, refs);
    hide RefBag;
    var loc' := loc[r.id := Loc(r.segment, r.offset)];
    forall id | id in loc' ensures HeldAsRef(refs + [r], hand, inflight, id) {
      assert id in loc ==> HeldAsRef(refs, hand, inflight, id);
    }
  }

  lemma SpillHolding(q: Queue, r: DiskRef)
    requires q.handItems != [] && r.id == HandItem(q).id
    ensures Holding(AddRef(LessItem(q), r)) == Holding(q)
  {
    HandItemHeld(q);
    RefBagPush(r, q.refs);
    hide RefBag, ItemBag;
    Shift(ItemBag(q.handItems), ItemBag(LessItem(q).handItems), RefBag(q.refs), RefBag(q.refs + [r]),
          RefBag(q.handRefs) + ItemBag(q.mem) + multiset(q.inflight.Keys), r.id);
  }

  lemma SpillKeeps(q: Queue)
    requires q.handItems != [] && q.handRefs == [] && q.store.Some? && !RefsFull(q)
    requires SpillItem(LessItem(q), HandItem(q)).1.Written?
    requires Inv(q)
    ensures Inv(SpillItem(LessItem(q), HandItem(q)).0)
  {
    hide Holding, Fates, LogExact, ClaimsExact, Placed, Unsettled, RefBag, ItemBag, SumSizes, RefsOk, EntriesOk,
         AppendItem;
    var item := HandItem(q);
    var (q', res) := SpillItem(LessItem(q), item);
    var r := DiskRef(item.id, res.segment, res.offset, item.enqueuedAt, item.attempts);
    HandItemUnplaced(q);
    HandUnsettled(q);
    AppendItemLog(q.store.value, item, q.lowest, q.led.loc, q.led.stale, q.led.durable);
    ClaimsAdd(q.claims, q.led.loc, item.id, Loc(r.segment, r.offset));
    PlacedAdd(q.refs, q.handRefs, q.inflight, q.led.loc, r);
    RefsOkPush(q.refs, r, q.led.start, q.led.charges);
    LocBound(q);
    SpillHolding(q, r);
    HoldingOnly(q', AddRef(LessItem(q), r));
    FatesOnly(q'.led, q.led);
    assert |q'.led.loc| == |q.led.loc| + 1;
  }

  lemma HandUnsettled(q: Queue)
    requires q.handItems != []
    requires Unsettled(Holding(q), q.led.durable, q.led.stale, q.led.accepted, q.led.seen)
    ensures HandItem(q).id !in q.led.durable && HandItem(q).id !in q.led.stale
  {
    HandItemHeld(q);
  }

  // ---- A reference's last moments ----

  /** Whether or not its ack is written, a dropped reference leaves the log exact: settled for
      good, or stale. */
  lemma SettleLog(d: Disk, id: Id, lowest: nat, loc: map<Id, Loc>, stale: set<Id>, durable: set<Id>)
    requires LogExact(d.segs, lowest, loc, stale, durable)
    requires |id| <= MAX_ID && (id in loc || id in stale)
    ensures var (d', res) := AppendAck(d, id);
            if res.Written? then LogExact(d'.segs, lowest, loc - {id}, stale - {id}, durable + {id})
            else LogExact(d'.segs, lowest, loc - {id}, stale + {id}, durable)
  {
    hide Append, AllReadable, AcksFollowItems, Replay;
    var (d', res) := AppendAck(d, id);
    if res.Written? {
      AppendAckLog(d, id, lowest, loc, stale, durable);
    } else {
      var base := AppendShape(d, AckRec(id));
      QuietLog(d.segs, d'.segs, lowest, loc, stale, durable);
    }
  }

  lemma PlacedRelease(refs: seq<DiskRef>, hand: seq<DiskRef>, inflight: map<Id, Entry>, loc: map<Id, Loc>)
    requires Placed(refs, hand, inflight, loc) && hand != []
    requires var r := hand[|hand| - 1];
             r.id !in RefBag(refs) && r.id !in RefBag(hand[..|hand| - 1]) && r.id !in inflight
    ensures Placed(refs, hand[..|hand| - 1], inflight, loc - {hand[|hand| - 1].id})
  {
    var n := |hand| - 1;
    var r, hand' := hand[n], hand[..n];
    var loc' := loc - {r.id};
    assert hand == hand' + [r];
    RefBagPush(r, hand');
    hide RefBag;
    forall x | x in refs ensures At(loc', x) {
      InRefBag(refs, x);
    }
    forall x | x in hand' ensures At(loc', x) {
      InRefBag(hand', x);
      assert x in hand;
    }
    forall id | id in inflight && inflight[id].RefEntry? ensures At(loc', inflight[id].ref) {
      assert EntryId(inflight[id]) == id;
    }
    forall id | id in loc' ensures HeldAsRef(refs, hand', inflight, id) {
      assert HeldAsRef(refs, hand, inflight, id);
    }
  }

  lemma HandRefAlone(q: Queue)
    requires Conserved(q) && q.handRefs != []
    ensures var id := HandRef(q).id;
            id !in RefBag(q.refs) && id !in RefBag(LessRef(q).handRefs) && id !in q.inflight
  {
    LessRefHolding(q);
  }

  lemma HandRefFacts(q: Queue)
    requires q.handRefs != [] && Placed(q.refs, q.handRefs, q.inflight, q.led.loc)
    requires RefsOk(q.handRefs, q.led.start, q.led.charges)
    ensures At(q.led.loc, HandRef(q)) && |HandRef(q).id| <= MAX_ID
  {
  }

  /** Field by field, what becomes of the queue when its hand reference is settled. */
  lemma RefGoneShape(q: Queue, fate: Fate, charge: nat)
    requires q.handRefs != [] && q.store.Some?
    requires Claim(q, HandRef(q).segment) > 0
    ensures var id := HandRef(q).id; var s := HandRef(q).segment; var c := Claim(q, s);
            var q' := RefGone(q, fate, charge); var (d, res) := AppendAck(q.store.value, id);
            && q' == q.(handRefs := q'.handRefs, claims := q'.claims, store := q'.store, led := q'.led,
                        droppedTotal := q'.droppedTotal, unrecordedTotal := q'.unrecordedTotal)
            && q'.handRefs == LessRef(q).handRefs
            && q'.claims == (if c == 1 then q.claims - {s} else q.claims[s := c - 1])
            && q'.store == Some(d)
            && q'.led.loc == q.led.loc - {id}
            && q'.led.durable == (if res.Written? then q.led.durable + {id} else q.led.durable)
            && q'.led.stale == (if res.Written? then q.led.stale - {id} else q.led.stale + {id})
            && q'.led.accepted == q.led.accepted && q'.led.seen == q.led.seen && q'.led.peak == q.led.peak
            && q'.led.start == q.led.start
            && q'.led.charges == (if charge == 0 then q.led.charges else q.led.charges[id := Charges(q, id) + charge])
            && q'.led.acked == (if fate.FateAcked? then q.led.acked + {id} else q.led.acked)
            && q'.led.lost == (if fate.FateLost? then q.led.lost + {id} else q.led.lost)
            && q'.led.dropped == (if fate.FateDropped? then q.led.dropped + {id} else q.led.dropped)
            && q'.led.unrecorded == (if fate.FateUnrecorded? then q.led.unrecorded + {id} else q.led.unrecorded)
  {
    hide AppendAck, MarkFate, Settle, Release;
    var id := HandRef(q).id;
    var q1 := Charged(LessRef(q), id, charge);
    var q2 := Release(q1, HandRef(q));
    ReleaseShape(q1, HandRef(q));
    SettleShape(q2, id);
    MarkFateShape(Settle(q2, id), id, fate);
  }

  lemma ReleaseShape(q: Queue, ref: DiskRef)
    requires Claim(q, ref.segment) > 0
    ensures var s := ref.segment; var c := Claim(q, s);
            Release(q, ref) == q.(claims := if c == 1 then q.claims - {s} else q.claims[s := c - 1],
                                  led := q.led.(loc := q.led.loc - {ref.id}))
  {
  }

  lemma SettleShape(q: Queue, id: Id)
    requires q.store.Some?
    ensures var q' := Settle(q, id); var (d, res) := AppendAck(q.store.value, id);
            && q' == q.(store := Some(d), led := q'.led)
            && q'.led == q.led.(durable := q'.led.durable, stale := q'.led.stale)
            && q'.led.durable == (if res.Written? then q.led.durable + {id} else q.led.durable)
            && q'.led.stale == (if res.Written? then q.led.stale - {id} else q.led.stale + {id})
  {
    hide AppendAck;
  }

  lemma MarkFateShape(q: Queue, id: Id, fate: Fate)
    ensures var q' := MarkFate(q, id, fate);
            && q' == q.(led := q'.led, droppedTotal := q'.droppedTotal, unrecordedTotal := q'.unrecordedTotal)
            && q'.led == q.led.(acked := q'.led.acked, dropped := q'.led.dropped, unrecorded := q'.led.unrecorded,
                                lost := q'.led.lost)
            && q'.led.acked == (if fate.FateAcked? then q.led.acked + {id} else q.led.acked)
            && q'.led.lost == (if fate.FateLost? then q.led.lost + {id} else q.led.lost)
            && q'.led.dropped == (if fate.FateDropped? then q.led.dropped + {id} else q.led.dropped)
            && q'.led.unrecorded == (if fate.FateUnrecorded? then q.led.unrecorded + {id} else q.led.unrecorded)
  {
  }

  /** What a queue holds and has counted, apart from everything else about it. */
  ghost predicate SameBooks(a: Queue, b: Queue) {
    && Holding(a) == Holding(b) && Fates(a.led) == Fates(b.led) && a.led.accepted == b.led.accepted
    && a.led.dropped == b.led.dropped && a.led.unrecorded == b.led.unrecorded
    && a.droppedTotal == b.droppedTotal && a.unrecordedTotal == b.unrecordedTotal
  }

  lemma ChargedBooks(q: Queue, id: Id, charge: nat)
    ensures SameBooks(Charged(q, id, charge), q)
  {
    hide Holding, Fates;
    HoldingOnly(Charged(q, id, charge), q);
    FatesOnly(Charged(q, id, charge).led, q.led);
  }

  lemma ReleaseBooks(q: Queue, ref: DiskRef)
    ensures SameBooks(Release(q, ref), q)
  {
    hide Holding, Fates;
    HoldingOnly(Release(q, ref), q);
    FatesOnly(Release(q, ref).led, q.led);
  }

  lemma SettleBooks(q: Queue, id: Id)
    ensures SameBooks(Settle(q, id), q)
  {
    hide AppendAck, Holding, Fates;
    HoldingOnly(Settle(q, id), q);
    FatesOnly(Settle(q, id).led, q.led);
  }

  lemma MarkFateHolding(q: Queue, id: Id, fate: Fate)
    ensures Holding(MarkFate(q, id, fate)) == Holding(q)
  {
  }

  lemma RefGoneFates(q: Queue, fate: Fate, charge: nat)
    requires q.handRefs != [] && Conserved(q)
    ensures Conserved(RefGone(q, fate, charge))
    ensures Holding(RefGone(q, fate, charge)) == Holding(LessRef(q))
  {
    hide Holding, Fates, Settle, Release, Charged, MarkFate;
    var id := HandRef(q).id;
    var q1 := LessRef(q);
    var q2 := Release(Charged(q1, id, charge), HandRef(q));
    var q3 := Settle(q2, id);
    LessRefHolding(q);
    ChargedBooks(q1, id, charge);
    ReleaseBooks(Charged(q1, id, charge), HandRef(q));
    SettleBooks(q2, id);
    FateConserves(q3, id, fate);
    MarkFateHolding(q3, id, fate);
  }

  lemma UnsettledLess(held: multiset<Id>, held': multiset<Id>, id: Id, led: Ledger)
    requires Unsettled(held, led.durable, led.stale, led.accepted, led.seen)
    requires held == held' + multiset{id} && id !in held' && id in led.seen
    ensures Unsettled(held', led.durable + {id}, led.stale - {id}, led.accepted, led.seen)
    ensures Unsettled(held', led.durable, led.stale + {id}, led.accepted, led.seen)
  {
    assert forall x | x in held' :: x in held;
    assert id in held;
  }

  lemma TriedLessRef(q: Queue, b: Ledger)
    requires q.handRefs != [] && TriedAll(q) && Conserved(q) && SameBut(q.led, b, HandRef(q).id)
    ensures TriedAll(LessRef(q).(led := b))
  {
    hide Conserved, Holding, ItemsOk, RefsOk, EntriesOk, SameBut;
    LessRefHolding(q);
    RefsFront(q.handRefs, q.led);
    TriedElsewhere(LessRef(q), b, HandRef(q).id);
  }

  lemma RefFateKeeps(q: Queue, fate: Fate, charge: nat)
    requires q.handRefs != [] && q.store.Some? && !fate.FateLost?
    requires fate.FateAcked? ==> AppendAck(q.store.value, HandRef(q).id).1.Written?
    requires Inv(q)
    ensures Inv(RefGone(q, fate, charge))
  {
    hide Conserved, Holding, LogInv, ClaimsExact, Placed, AppendAck, RefGone, Unsettled, Counted, TriedAll, GivenUp,
         Bounded;
    RefFateDisk(q, fate, charge);
    RefFateBooks(q, fate, charge);
    RefFateTried(q, fate, charge);
  }

  /** The half of the invariant about the files and what refers to them. */
  lemma RefFateDisk(q: Queue, fate: Fate, charge: nat)
    requires q.handRefs != [] && q.store.Some? && !fate.FateLost?
    requires fate.FateAcked? ==> AppendAck(q.store.value, HandRef(q).id).1.Written?
    requires Inv(q)
    ensures var q' := RefGone(q, fate, charge);
            && Placed(q'.refs, q'.handRefs, q'.inflight, q'.led.loc)
            && ClaimsExact(q'.claims, q'.led.loc) && q'.underflows == 0
            && LogInv(q'.store, q'.lowest, q'.led.loc, q'.led.stale, q'.led.durable)
            && Unsettled(Holding(q'), q'.led.durable, q'.led.stale, q'.led.accepted, q'.led.seen)
  {
    hide Conserved, Holding, Fates, LogExact, ClaimsExact, Placed, RefBag, ItemBag, SumSizes, AppendAck, RefGone,
         Unsettled, Counted, ItemsOk, RefsOk, EntriesOk, GivenUp, Bounded;
    var id := HandRef(q).id;
    HandRefFacts(q);
    ClaimsRelease(q.claims, q.led.loc, id);
    RefGoneShape(q, fate, charge);
    RefGoneFates(q, fate, charge);
    HandRefAlone(q);
    LessRefHolding(q);
    SettleLog(q.store.value, id, q.lowest, q.led.loc, q.led.stale, q.led.durable);
    PlacedRelease(q.refs, q.handRefs, q.inflight, q.led.loc);
    LiveSeen(q);
    UnsettledLess(Holding(q), Holding(RefGone(q, fate, charge)), id, q.led);
  }

  /** The half about the counters and the ledger. */
  lemma RefFateBooks(q: Queue, fate: Fate, charge: nat)
    requires q.handRefs != [] && q.store.Some? && !fate.FateLost?
    requires fate.FateAcked? ==> AppendAck(q.store.value, HandRef(q).id).1.Written?
    requires Inv(q)
    ensures var q' := RefGone(q, fate, charge);
            Conserved(q') && Counted(q') && GivenUp(q'.led) && Bounded(q')
  {
    hide Conserved, Holding, Fates, LogInv, ClaimsExact, Placed, RefBag, ItemBag, SumSizes, AppendAck, RefGone,
         Unsettled, Counted, TriedAll;
    HandRefClaimed(q);
    RefGoneShape(q, fate, charge);
    RefGoneFates(q, fate, charge);
    HandRefUnsettled(q);
    SmallerMap(q.led.loc, HandRef(q).id);
    CountedSame(q, RefGone(q, fate, charge));
  }

  lemma HandRefClaimed(q: Queue)
    requires q.handRefs != [] && Inv(q)
    ensures Claim(q, HandRef(q).segment) > 0 && At(q.led.loc, HandRef(q))
  {
    hide Conserved, Holding, Fates, LogInv, ClaimsExact, Placed, ItemsOk, RefsOk, EntriesOk, Unsettled, Counted,
         GivenUp, Bounded;
    HandRefFacts(q);
    ClaimsRelease(q.claims, q.led.loc, HandRef(q).id);
  }

  lemma RefFateTried(q: Queue, fate: Fate, charge: nat)
    requires q.handRefs != [] && q.store.Some? && !fate.FateLost?
    requires fate.FateAcked? ==> AppendAck(q.store.value, HandRef(q).id).1.Written?
    requires Inv(q)
    ensures TriedAll(RefGone(q, fate, charge))
  {
    hide Conserved, Holding, Fates, LogInv, ClaimsExact, Placed, ItemsOk, RefsOk, EntriesOk, AppendAck, RefGone,
         Unsettled, Counted, GivenUp, Bounded;
    var q' := RefGone(q, fate, charge);
    HandRefClaimed(q);
    RefGoneShape(q, fate, charge);
    TriedLessRef(q, q'.led);
    TriedOnly(LessRef(q).(led := q'.led), q');
  }

  lemma HandRefUnsettled(q: Queue)
    requires q.handRefs != [] && Conserved(q)
    ensures HandRef(q).id !in q.led.acked && HandRef(q).id !in q.led.lost
  {
    hide RefBag, ItemBag;
    HandRefHeld(q);
    Once(q, HandRef(q).id);
  }

  lemma SmallerMap(loc: map<Id, Loc>, id: Id)
    ensures |loc - {id}| <= |loc|
  {
    SubsetSize((loc - {id}).Keys, loc.Keys);
    assert |loc| == |loc.Keys| && |loc - {id}| == |(loc - {id}).Keys|;
  }

  // ---- The store on its own ----

  lemma QuietKeeps(q: Queue, d: Disk)
    requires q.store.Some? && Quiet(q.store.value.segs, d.segs)
    requires Inv(q)
    ensures Inv(q.(store := Some(d)))
  {
    hide Holding, Fates, LogExact, ClaimsExact, Placed, Unsettled, TriedAll, Counted, Bounded;
    QuietLog(q.store.value.segs, d.segs, q.lowest, q.led.loc, q.led.stale, q.led.durable);
    HoldingOnly(q.(store := Some(d)), q);
    assert TriedAll(q.(store := Some(d))) by { TriedOnly(q, q.(store := Some(d))); }
    CountedSame(q, q.(store := Some(d)));
    BoundedSame(q, q.(store := Some(d)));
  }

  lemma TriedOnly(q: Queue, b: Queue)
    requires TriedAll(q) && q.refs == b.refs && q.handRefs == b.handRefs && q.handItems == b.handItems
    requires q.mem == b.mem && q.inflight == b.inflight
    requires q.led.start == b.led.start && q.led.charges == b.led.charges
    ensures TriedAll(b)
  {
  }

  lemma LiveNotStale(q: Queue)
    requires Placed(q.refs, q.handRefs, q.inflight, q.led.loc)
    requires Unsettled(Holding(q), q.led.durable, q.led.stale, q.led.accepted, q.led.seen)
    ensures q.led.loc.Keys !! q.led.stale && q.led.loc.Keys !! q.led.durable
  {
    hide Holding;
    forall id | id in q.led.loc ensures id !in q.led.stale && id !in q.led.durable {
      LocHeld(q, id);
    }
  }

  lemma ReclaimKeeps(q: Queue)
    requires Spent(q) && RemoveLowest(q).1
    requires Inv(q)
    ensures Inv(RemoveLowest(q).0)
  {
    hide Holding, Fates, LogExact, ClaimsExact, Placed, TriedAll, Remove, Replay, Counted, Bounded;
    var q' := RemoveLowest(q).0;
    LiveNotStale(q);
    ClaimsSpent(q.claims, q.led.loc, q.lowest);
    RemoveLog(q.store.value, q.lowest, q.led.loc, q.led.stale, q.led.durable);
    HoldingOnly(q', q);
    FatesOnly(q'.led, q.led);
    TriedOnly(q, q');
    CountedSame(q, q');
    BoundedSame(q, q');
  }

  // ---- Crash and restart ----

  lemma BootLog(segs: Segments, lowest: nat, loc: map<Id, Loc>, stale: set<Id>, durable: set<Id>, b: Segments)
    requires LogExact(segs, lowest, loc, stale, durable) && Quiet(segs, b) && Live(segs)
    ensures LogExact(b, LowestFile(b), map[], Replay(b).pending.Keys, durable)
    ensures Replay(b) == Replay(segs)
  {
    hide AllReadable, AcksFollowItems, Replay, LowestFile;
    QuietLog(segs, b, lowest, loc, stale, durable);
    LowestFileFacts(b);
    if b != segs {
      ReplayRotate(segs);
    }
  }

  lemma LiveSeen(q: Queue)
    requires Conserved(q) && Placed(q.refs, q.handRefs, q.inflight, q.led.loc)
    requires Unsettled(Holding(q), q.led.durable, q.led.stale, q.led.accepted, q.led.seen)
    ensures q.led.loc.Keys <= q.led.seen
  {
    hide Holding, Conserved;
    forall id | id in q.led.loc ensures id in q.led.seen {
      LocHeld(q, id);
      HeldAccepted(q, id);
    }
  }

  lemma EmptyInv(cfg: Config, store: Option<Disk>, lowest: nat, led: Ledger)
    requires cfg.maxMemory > 0
    requires led == NO_HISTORY.(seen := led.seen, durable := led.durable, stale := led.stale)
    requires LogInv(store, lowest, map[], led.stale, led.durable)
    requires led.durable !! led.stale && led.durable <= led.seen && led.stale <= led.seen
    ensures Inv(EmptyQueue(cfg, store, lowest, led))
  {
    hide LogInv;
    var q := EmptyQueue(cfg, store, lowest, led);
    assert Holding(q) == multiset{} && Fates(led) == multiset{};
    assert forall s: nat :: On(map[], s) == {};
  }

  lemma CrashKeeps(q: Queue, cfg: Config, io: nat -> IO)
    requires cfg.maxMemory > 0
    requires Inv(q)
    ensures Inv(Crashed(q, cfg, io))
  {
    hide Holding, Fates, LogExact, ClaimsExact, Placed, TriedAll, Replay, LowestFile, DiskBytes, SegmentSize, Counted;
    LiveNotStale(q);
    LiveSeen(q);
    if q.store.Some? {
      var segs := q.store.value.segs;
      var d := Reopened(segs, DiskBudget(cfg), io);
      assert Quiet(segs, d.segs);
      assert Replay(segs).pending.Keys == q.led.loc.Keys + q.led.stale by { PendingKeys(q); }
      BootLog(segs, q.lowest, q.led.loc, q.led.stale, q.led.durable, d.segs);
      EmptyInv(cfg, Some(d), LowestFile(d.segs),
               NO_HISTORY.(seen := q.led.seen, durable := q.led.durable, stale := Replay(d.segs).pending.Keys));
    } else {
      EmptyInv(cfg, None, 0, NO_HISTORY.(seen := q.led.seen));
    }
  }

  lemma PendingKeys(q: Queue)
    requires q.store.Some? && LogInv(q.store, q.lowest, q.led.loc, q.led.stale, q.led.durable)
    ensures Replay(q.store.value.segs).pending.Keys == q.led.loc.Keys + q.led.stale
  {
  }

  lemma AdoptLog(segs: Segments, lowest: nat, loc: map<Id, Loc>, stale: set<Id>, durable: set<Id>, ref: DiskRef)
    requires LogExact(segs, lowest, loc, stale, durable) && ref.id in stale
    requires ref.id in Replay(segs).pending && ref == Replay(segs).pending[ref.id]
    ensures LogExact(segs, lowest, loc[ref.id := Loc(ref.segment, ref.offset)], stale - {ref.id}, durable)
    ensures |ref.id| <= MAX_ID
  {
    hide AcksFollowItems, Replay, SegmentSize;
    ReplayLocates(segs, ref.id);
    var i :| HoldsAt(Records(segs, ref.segment), i, ref);
    assert Readable(Records(segs, ref.segment)[i]);
  }

  lemma AddHolding(q: Queue, r: DiskRef)
    ensures Holding(AddRef(q, r)) == Holding(q) + multiset{r.id}
  {
    RefBagPush(r, q.refs);
    hide RefBag, ItemBag;
  }

  lemma UnsettledAdopt(held: multiset<Id>, id: Id, led: Ledger)
    requires Unsettled(held, led.durable, led.stale, led.accepted, led.seen) && id in led.stale
    ensures Unsettled(held + multiset{id}, led.durable, led.stale - {id}, led.accepted + {id}, led.seen)
    ensures Unsettled(held, led.durable + {id}, led.stale - {id}, led.accepted + {id}, led.seen)
    ensures Unsettled(held, led.durable, led.stale + {id}, led.accepted + {id}, led.seen)
    ensures id !in held
  {
  }

  lemma AdoptBooks(q: Queue, ref: DiskRef)
    requires Conserved(q) && ref.id !in q.led.accepted
    ensures Conserved(Adopt(q, ref)) && Holding(Adopt(q, ref)) == Holding(q) + multiset{ref.id}
  {
    hide Holding, Fates;
    var q' := Adopt(q, ref);
    AddHolding(q, ref);
    HoldingOnly(q', AddRef(q, ref));
    FatesOnly(q'.led, q.led);
    SetBag(q.led.accepted, ref.id);
  }

  lemma AdoptKeeps(q: Queue, ref: DiskRef)
    requires Owed(q, ref) && !RefsFull(q) && q.inflight == map[] && q.handRefs == []
    requires Inv(q)
    ensures Inv(Adopt(q, ref))
  {
    hide Conserved, Holding, Fates, LogExact, ClaimsExact, Placed, RefBag, ItemBag, SumSizes, ItemsOk, RefsOk,
         EntriesOk, Replay, Unsettled;
    var q' := Adopt(q, ref);
    LiveNotStale(q);
    UnsettledAdopt(Holding(q), ref.id, q.led);
    AdoptBooks(q, ref);
    AdoptLog(q.store.value.segs, q.lowest, q.led.loc, q.led.stale, q.led.durable, ref);
    ClaimsAdd(q.claims, q.led.loc, ref.id, Loc(ref.segment, ref.offset));
    PlacedAdd(q.refs, q.handRefs, q.inflight, q.led.loc, ref);
    TriedElsewhere(q, q'.led, ref.id);
    RefsOkPush(q.refs, ref, q'.led.start, q'.led.charges);
    LocBound(q);
    assert |q'.led.loc| == |q.led.loc| + 1;
  }

  lemma CutOffBooks(q: Queue, ref: DiskRef)
    requires Conserved(q) && ref.id !in q.led.accepted
    ensures Conserved(CutOff(q, ref)) && Holding(CutOff(q, ref)) == Holding(q)
  {
    hide Holding, Fates, Settle;
    var q1 := q.(led := q.led.(accepted := q.led.accepted + {ref.id}));
    HoldingOnly(q1, q);
    FatesOnly(q1.led, q.led);
    SettleBooks(q1, ref.id);
    SetBag(q.led.accepted, ref.id);
    assert Holding(q) + multiset{ref.id} + Fates(q.led) == multiset(q1.led.accepted);
    FateConserves(Settle(q1, ref.id), ref.id, FateDropped);
    MarkFateHolding(Settle(q1, ref.id), ref.id, FateDropped);
  }

  lemma CutOffKeeps(q: Queue, ref: DiskRef)
    requires Owed(q, ref)
    requires Inv(q)
    ensures Inv(CutOff(q, ref))
  {
    hide Conserved, Holding, Fates, LogExact, ClaimsExact, Placed, TriedAll, Replay, AppendAck, Unsettled, CutOff,
        Counted, Bounded;
    var id := ref.id;
    var q' := CutOff(q, ref);
    LiveNotStale(q);
    UnsettledAdopt(Holding(q), id, q.led);
    CutOffBooks(q, ref);
    AdoptLog(q.store.value.segs, q.lowest, q.led.loc, q.led.stale, q.led.durable, ref);
    SettleLog(q.store.value, id, q.lowest, q.led.loc, q.led.stale, q.led.durable);
    NotThere(q.led.loc, id);
    CutOffShape(q, ref);
    TriedOnly(q, q');
    CountedSame(q, q');
    BoundedSame(q, q');
  }

  lemma NotThere(loc: map<Id, Loc>, id: Id)
    requires id !in loc
    ensures loc - {id} == loc
  {
  }

  lemma CutOffShape(q: Queue, ref: DiskRef)
    requires q.store.Some?
    ensures var q' := CutOff(q, ref); var (d, res) := AppendAck(q.store.value, ref.id);
            && q' == q.(store := Some(d), led := q'.led, droppedTotal := q.droppedTotal + 1)
            && q'.led == q.led.(accepted := q.led.accepted + {ref.id}, dropped := q.led.dropped + {ref.id},
                                durable := q'.led.durable, stale := q'.led.stale)
            && q'.led.durable == (if res.Written? then q.led.durable + {ref.id} else q.led.durable)
            && q'.led.stale == (if res.Written? then q.led.stale - {ref.id} else q.led.stale + {ref.id})
  {
    hide AppendAck;
  }

  // ---- All steps ----

  /** Every step keeps the invariant. */
  lemma StepKeeps(q: Queue, step: Step)
    requires Enabled(q, step)
    requires Inv(q)
    ensures Inv(Apply(q, step))
  {
    hide Inv;
    match step
    case Fresh(item) => FreshKeeps(q, item);
    case Grab => GrabKeeps(q);
    case Stow => StowKeeps(q);
    case StowFront => StowFrontKeeps(q);
    case SpillHand => SpillKeeps(q);
    case ItemFate(fate, charge) => ItemFateKeeps(q, fate, charge);
    case GrabRef => GrabRefKeeps(q);
    case ReturnRef => ReturnRefKeeps(q);
    case RefFate(fate, charge) => RefFateKeeps(q, fate, charge);
    case ToFlightRef(now) => ToFlightRefKeeps(q, now);
    case ToFlightItem(now) => ToFlightItemKeeps(q, now);
    case FromFlight(id) => FromFlightKeeps(q, id);
    case ChargeRef => ChargeRefKeeps(q);
    case ChargeItem => ChargeItemKeeps(q);
    case Reclaim => ReclaimKeeps(q);
    case Quietly(d) => QuietKeeps(q, d);
    case SetClosed => ClosedKeeps(q);
    case Crash(cfg, io) => CrashKeeps(q, cfg, io);
    case AdoptRef(ref) => AdoptKeeps(q, ref);
    case CutOffRef(ref) => CutOffKeeps(q, ref);
  }

  lemma ClosedKeeps(q: Queue)
    requires Inv(q)
    ensures Inv(q.(closed := true))
  {
    hide Holding, Fates, LogInv, ClaimsExact, Placed, Unsettled, TriedAll, Counted, Bounded;
    HoldingOnly(q.(closed := true), q);
    TriedOnly(q, q.(closed := true));
    CountedSame(q, q.(closed := true));
    BoundedSame(q, q.(closed := true));
  }
}
