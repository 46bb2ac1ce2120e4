/** What becomes of every item a hand-back names: retired, back in front as a reference, back in
    memory, spilled, or dropped because there was no room left for it. */
module QueueHandback {
  import opened Bytes
  import opened WalCodec
  import opened Wal
  import opened SpillDisk
  import opened DiskFaults
  import opened QueueModel
  import opened QueueInvariant
  import opened QueueRuns
  import opened QueueTheorems
  import opened QueueLaws
  import opened QueueFlows
  import opened QueueAdmission
  import opened QueueSettling

  // ---- What a hand-back names ----

  predicate Lives(e: Entry, charge: nat) {
    AttemptsOf(e) + charge <= MAX_ATTEMPTS
  }

  function Charging(x: Item, charge: nat): Item {
    x.(attempts := x.attempts + charge)
  }

  /** The memory items among the ids that live on, charged, in the order named. */
  ghost function BackItems(flight: map<Id, Entry>, ids: seq<Id>, charge: nat): seq<Item>
    decreases |ids|
  {
    if ids == [] then [] else
    var here := if ids[0] in flight && flight[ids[0]].MemEntry? && Lives(flight[ids[0]], charge)
                then [Charging(flight[ids[0]].item, charge)] else [];
    here + BackItems(flight - {ids[0]}, ids[1..], charge)
  }

  /** The references among them, likewise. */
  ghost function BackRefs(flight: map<Id, Entry>, ids: seq<Id>, charge: nat): seq<DiskRef>
    decreases |ids|
  {
    if ids == [] then [] else
    var here := if ids[0] in flight && flight[ids[0]].RefEntry? && Lives(flight[ids[0]], charge)
                then [flight[ids[0]].ref.(attempts := flight[ids[0]].ref.attempts + charge)] else [];
    here + BackRefs(flight - {ids[0]}, ids[1..], charge)
  }

  /** The ones that are out of attempts. */
  ghost function Retirees(flight: map<Id, Entry>, ids: seq<Id>, charge: nat): set<Id> {
    set id | id in ids && id in flight && !Lives(flight[id], charge)
  }

  lemma RetireesFirst(flight: map<Id, Entry>, ids: seq<Id>, charge: nat)
    requires ids != []
    ensures Retirees(flight, ids, charge)
            == Retirees(flight - {ids[0]}, ids[1..], charge)
               + if ids[0] in flight && !Lives(flight[ids[0]], charge) then {ids[0]} else {}
  {
    assert ids == [ids[0]] + ids[1..];
  }

  /** What ack records for these ids would take. */
  function AckBytesOf(ids: seq<Id>): nat {
    if ids == [] then 0 else RecordSize(AckRec(ids[0])) + AckBytesOf(ids[1..])
  }

  // ---- Out of flight ----

  /** What taking ids back leaves alone, and how far it fills the disk. */
  ghost predicate OnlyTakes(q: Queue, q': Queue, bytes: nat) {
    && Flows(q, q') && q'.refs == q.refs && q'.mem == q.mem && q'.memBytes == q.memBytes && q'.cfg == q.cfg
    && q'.closed == q.closed && q'.led.acked == q.led.acked && q.led.durable <= q'.led.durable
    && (q.store.Some? ==> q'.store.Some? && q'.store.value.total <= q.store.value.total + bytes)
  }

  lemma RetireTakes(q: Queue, id: Id, e: Entry, delivered: bool)
    ensures var q' := Retire(q, id, e, delivered);
            && OnlyTakes(q, q', RecordSize(AckRec(id))) && q'.inflight == q.inflight
            && q'.handItems == q.handItems && q'.handRefs == q.handRefs
            && q'.led.dropped == q.led.dropped + (if delivered then {} else {id})
            && q'.led.unrecorded == q.led.unrecorded + (if delivered then {id} else {})
            && (e.RefEntry? && q.store.Some? ==> id in q'.led.durable || Faults(q, q'))
  {
    hide Settle, Release, Flows, Faults, RecordSize;
    RetireFlows(q, id, e, delivered);
    if e.RefEntry? {
      ReleaseFrame(q, e.ref);
      SettleFrame(Release(q, e.ref), id);
      SettleBytes(Release(q, e.ref), id);
    }
  }

  lemma SettleBytes(q: Queue, id: Id)
    ensures q.store.Some? ==> Settle(q, id).store.Some?
                              && Settle(q, id).store.value.total <= q.store.value.total + RecordSize(AckRec(id))
  {
    hide Append, RecordSize;
    if q.store.Some? {
      AppendLaw(q.store.value, AckRec(id));
    }
  }

  lemma TakeBackLaw(q: Queue, id: Id, kind: NackKind)
    ensures var q', charge := TakeBack(q, id, kind), ChargeOf(kind);
            var gone := if id in q.inflight && !Lives(q.inflight[id], charge) then {id} else {};
            && OnlyTakes(q, q', RecordSize(AckRec(id))) && q'.inflight == q.inflight - {id}
            && q'.handItems == q.handItems + BackItems(q.inflight, [id], charge)
            && q'.handRefs == q.handRefs + BackRefs(q.inflight, [id], charge)
            && q'.led.dropped == q.led.dropped + (if kind.NackDelivered? then {} else gone)
            && q'.led.unrecorded == q.led.unrecorded + (if kind.NackDelivered? then gone else {})
            && (id in gone && OnDisk(q, id) ==> id in q'.led.durable || Faults(q, q'))
  {
    hide Retire, Flows, Faults, RecordSize, BackItems, BackRefs, OnlyTakes, Lives;
    var charge := ChargeOf(kind);
    if id !in q.inflight {
      assert q.inflight - {id} == q.inflight;
      NothingBack(q, charge);
      NoneOf(q.inflight, id, charge);
    } else {
      EndsOf(q.inflight, id, charge);
      if Lives(q.inflight[id], charge) {
        KeepsInHand(q, id, kind);
      } else {
        RetiresNow(q, id, kind);
      }
    }
  }

  lemma NoneOf(flight: map<Id, Entry>, id: Id, charge: nat)
    requires id !in flight
    ensures BackItems(flight, [id], charge) == [] && BackRefs(flight, [id], charge) == []
  {
    assert [id][1..] == [];
    assert BackItems(flight - {id}, [], charge) == [] && BackRefs(flight - {id}, [], charge) == [];
  }

  /** What one id in flight gives back. */
  lemma EndsOf(flight: map<Id, Entry>, id: Id, charge: nat)
    requires id in flight
    ensures BackItems(flight, [id], charge)
            == if flight[id].MemEntry? && Lives(flight[id], charge) then [Charging(flight[id].item, charge)] else []
    ensures BackRefs(flight, [id], charge)
            == if flight[id].RefEntry? && Lives(flight[id], charge)
               then [flight[id].ref.(attempts := flight[id].ref.attempts + charge)] else []
  {
    assert [id][1..] == [];
    assert BackItems(flight - {id}, [], charge) == [] && BackRefs(flight - {id}, [], charge) == [];
  }

  lemma KeepsInHand(q: Queue, id: Id, kind: NackKind)
    requires id in q.inflight && Lives(q.inflight[id], ChargeOf(kind))
    ensures var q', charge, e := TakeBack(q, id, kind), ChargeOf(kind), q.inflight[id];
            && OnlyTakes(q, q', RecordSize(AckRec(id))) && q'.inflight == q.inflight - {id}
            && q'.handItems == q.handItems + (if e.MemEntry? then [Charging(e.item, charge)] else [])
            && q'.handRefs == q.handRefs + (if e.RefEntry? then [e.ref.(attempts := e.ref.attempts + charge)] else [])
            && q'.led.dropped == q.led.dropped && q'.led.unrecorded == q.led.unrecorded
  {
    hide Retire, Flows, RecordSize;
    FlowsSame(q, TakeBack(q, id, kind));
    assert q.handItems + [] == q.handItems && q.handRefs + [] == q.handRefs;
  }

  lemma RetiresNow(q: Queue, id: Id, kind: NackKind)
    requires id in q.inflight && !Lives(q.inflight[id], ChargeOf(kind))
    ensures var q', charge := TakeBack(q, id, kind), ChargeOf(kind);
            && OnlyTakes(q, q', RecordSize(AckRec(id))) && q'.inflight == q.inflight - {id}
            && q'.handItems == q.handItems && q'.handRefs == q.handRefs
            && q'.led.dropped == q.led.dropped + (if kind.NackDelivered? then {} else {id})
            && q'.led.unrecorded == q.led.unrecorded + (if kind.NackDelivered? then {id} else {})
            && (OnDisk(q, id) ==> id in q'.led.durable || Faults(q, q'))
  {
    hide Retire, Flows, Faults, RecordSize;
    var q0 := q.(inflight := q.inflight - {id});
    var q1 := if ChargeOf(kind) == 0 then q0
              else q0.(led := q.led.(charges := q.led.charges[id := Charges(q, id) + 1]));
    RetireTakes(q1, id, q.inflight[id], kind.NackDelivered?);
    var q2 := Retire(q1, id, q.inflight[id], kind.NackDelivered?);
    FlowsAlike(q, q1, q2, q2);
  }

  lemma OnlyTakesTwice(a: Queue, b: Queue, c: Queue, m: nat, n: nat)
    requires OnlyTakes(a, b, m) && OnlyTakes(b, c, n)
    ensures OnlyTakes(a, c, m + n)
  {
    hide Flows;
    FlowsTwice(a, b, c);
  }

  lemma {:induction false} TakeBackAllLaw(q: Queue, ids: seq<Id>, kind: NackKind)
    ensures var q', charge := TakeBackAll(q, ids, kind), ChargeOf(kind);
            var gone := Retirees(q.inflight, ids, charge);
            && OnlyTakes(q, q', AckBytesOf(ids))
            && q'.handItems == q.handItems + BackItems(q.inflight, ids, charge)
            && q'.handRefs == q.handRefs + BackRefs(q.inflight, ids, charge)
            && q'.led.dropped == q.led.dropped + (if kind.NackDelivered? then {} else gone)
            && q'.led.unrecorded == q.led.unrecorded + (if kind.NackDelivered? then gone else {})
            && (Faults(q, q') || forall id | id in gone && OnDisk(q, id) :: id in q'.led.durable)
    decreases |ids|
  {
    hide TakeBack, OnlyTakes, Faults, Flows, RecordSize, Lives, BackItems, BackRefs, Retirees;
    var charge := ChargeOf(kind);
    if ids == [] {
      NothingBack(q, charge);
    } else {
      var id, rest := ids[0], ids[1..];
      var q1 := TakeBack(q, id, kind);
      TakeBackLaw(q, id, kind);
      TakeBackAllLaw(q1, rest, kind);
      var q2 := TakeBackAll(q1, rest, kind);
      OnlyTakesTwice(q, q1, q2, RecordSize(AckRec(id)), AckBytesOf(rest));
      RetireesFirst(q.inflight, ids, charge);
      BackFirst(q.inflight, ids, charge);
      Assoc(q.handItems, BackItems(q.inflight, [id], charge), BackItems(q1.inflight, rest, charge));
      Assoc(q.handRefs, BackRefs(q.inflight, [id], charge), BackRefs(q1.inflight, rest, charge));
      DurableBoth(q, q1, q2, ids, charge);
    }
  }

  lemma NothingBack(q: Queue, charge: nat)
    ensures (forall n: nat :: OnlyTakes(q, q, n)) && Retirees(q.inflight, [], charge) == {}
    ensures q.handItems + [] == q.handItems && q.handRefs + [] == q.handRefs
    ensures q.handItems + BackItems(q.inflight, [], charge) == q.handItems
    ensures q.handRefs + BackRefs(q.inflight, [], charge) == q.handRefs
  {
  }

  lemma BackFirst(flight: map<Id, Entry>, ids: seq<Id>, charge: nat)
    requires ids != []
    ensures BackItems(flight, ids, charge)
            == BackItems(flight, [ids[0]], charge) + BackItems(flight - {ids[0]}, ids[1..], charge)
    ensures BackRefs(flight, ids, charge)
            == BackRefs(flight, [ids[0]], charge) + BackRefs(flight - {ids[0]}, ids[1..], charge)
  {
    var one, fewer := [ids[0]], flight - {ids[0]};
    assert one[1..] == [];
    assert BackItems(fewer, [], charge) == [] && BackRefs(fewer, [], charge) == [];
  }

  lemma DurableBoth(q: Queue, q1: Queue, q2: Queue, ids: seq<Id>, charge: nat)
    requires ids != [] && q1.inflight == q.inflight - {ids[0]} && OnlyTakes(q, q1, RecordSize(AckRec(ids[0])))
    requires exists n: nat :: OnlyTakes(q1, q2, n)
    requires ids[0] in q.inflight && !Lives(q.inflight[ids[0]], charge) && OnDisk(q, ids[0])
             ==> ids[0] in q1.led.durable || Faults(q, q1)
    requires Faults(q1, q2)
             || forall id | id in Retirees(q1.inflight, ids[1..], charge) && OnDisk(q1, id) :: id in q2.led.durable
    ensures Faults(q, q2)
            || forall id | id in Retirees(q.inflight, ids, charge) && OnDisk(q, id) :: id in q2.led.durable
  {
    hide Flows, Faults, Lives, RecordSize;
    FlowsTwice(q, q1, q2);
    FlowsStore(q, q1);
    RetireesFirst(q.inflight, ids, charge);
  }

  // ---- Back into the queue ----

  /** Where the hand items went: to memory, to disk, or nowhere. */
  ghost predicate Dispersed(q: Queue, q': Queue, stowed: seq<Item>, spilled: seq<Item>, lost: seq<Item>) {
    && multiset(q.handItems) == multiset(stowed) + multiset(spilled) + multiset(lost)
    && multiset(q'.mem) == multiset(q.mem) + multiset(stowed)
    && SpilledAs(q.refs, q'.refs, spilled)
    && q'.led.dropped == q.led.dropped + IdsOfItems(lost)
    && (forall x | x in spilled || x in lost :: !CanAccept(q', ItemSize(x)))
  }

  ghost predicate OnlyReturns(q: Queue, q': Queue) {
    && Flows(q, q') && q'.cfg == q.cfg && q'.closed == q.closed
    && q'.inflight == q.inflight && q'.handRefs == q.handRefs
    && q'.led.acked == q.led.acked && q'.led.unrecorded == q.led.unrecorded && q'.led.durable == q.led.durable
    && q.memBytes <= q'.memBytes && |q.mem| <= |q'.mem| && |q.refs| <= |q'.refs|
  }

  /** Why an item found no place: no disk tier, no slot, no bytes, or a failed write. */
  ghost predicate NoPlace(q: Queue, q': Queue, items: seq<Item>) {
    q.store.None? || RefsFull(q') || !BytesFor(q, items) || Faults(q, q')
  }

  lemma ReverseMemory(s: seq<Item>)
    ensures |Reverse(s)| == |s| && multiset(Reverse(s)) == multiset(s)
  {
    if s != [] {
      ReverseMemory(s[1..]);
      assert s == [s[0]] + s[1..];
    }
  }

  /** The one item, last in hand: to memory exactly if it fits there. */
  lemma ReturnItemLaw(q: Queue)
    requires q.handItems != [] && Encodable(q.handItems[|q.handItems| - 1])
    ensures var n := |q.handItems| - 1; var x := q.handItems[n]; var (q', ok) := ReturnItem(q);
            && OnlyReturns(q, q') && q'.handItems == q.handItems[..n]
            && (q.store.Some? ==> q'.store.Some?
                                  && q'.store.value.total <= q.store.value.total + RecordSize(ItemRec(x)))
            && (if CanAccept(q, ItemSize(x)) then
                  && ok && q'.mem == [x] + Reverse(q.mem) && q'.refs == q.refs && q'.led.dropped == q.led.dropped
                else if q'.refs != q.refs then
                  && ok && q'.mem == q.mem && SpilledAs(q.refs, q'.refs, [x]) && q'.led.dropped == q.led.dropped
                else
                  && q'.mem == q.mem && q'.led.dropped == q.led.dropped + {x.id} && (ok <==> q.store.None?)
                  && NoPlace(q, q', [x]))
            && (!CanAccept(q, ItemSize(x)) ==> q'.memBytes == q.memBytes)
  {
    hide SpillItem, Flows, Faults, RecordSize, SpilledAs, Slots, Reverse, RoomFor;
    var n := |q.handItems| - 1;
    var x := q.handItems[n];
    var q1 := q.(handItems := q.handItems[..n]);
    ReverseMemory(q.mem);
    ReturnItemFlows(q);
    if !CanAccept(q, ItemSize(x)) && q.store.Some? {
      SpillLaw(q1, x);
      SpillDurable(q1, x);
      var (q2, res) := SpillItem(q1, x);
      FlowsAlike(q, q1, q2, q2);
      FlowsAlike(q, q1, q2, CountDrop(q2, x.id));
      assert [x][1..] == [] && RecordBytesOf([x]) == RecordSize(ItemRec(x)) + RecordBytesOf([]);
      if res.Written? {
        SpilledSize(q.refs, q2.refs, [x]);
      }
    }
  }

  lemma SpillDurable(q: Queue, x: Item)
    requires q.store.Some?
    ensures var led := SpillItem(q, x).0.led; led == q.led.(loc := led.loc)
  {
    hide Append;
  }

  lemma OnlyReturnsTwice(a: Queue, b: Queue, c: Queue)
    requires OnlyReturns(a, b) && OnlyReturns(b, c)
    ensures OnlyReturns(a, c)
  {
    hide Flows;
    FlowsTwice(a, b, c);
  }

  lemma {:induction false} ReturnItemsLaw(q: Queue, ok: bool)
    returns (stowed: seq<Item>, spilled: seq<Item>, lost: seq<Item>)
    requires forall x | x in q.handItems :: Encodable(x)
    ensures var (q', ok') := ReturnItems(q, ok);
            && OnlyReturns(q, q') && q'.handItems == [] && Dispersed(q, q', stowed, spilled, lost)
            && (ok' <==> ok && (lost == [] || q.store.None?))
            && (lost != [] ==> NoPlace(q, q', q.handItems))
    decreases |q.handItems|
  {
    hide ReturnItem, OnlyReturns, Flows, Faults, SpilledAs, RecordSize, Slots, Dispersed, NoPlace;
    stowed, spilled, lost := [], [], [];
    if q.handItems == [] {
      NothingReturned(q);
    } else {
      var n := |q.handItems| - 1;
      var x := q.handItems[n];
      var (q1, ok1) := ReturnItem(q);
      ReturnItemLaw(q);
      var a, b, c := ReturnItemsLaw(q1, ok && ok1);
      var q2 := ReturnItems(q1, ok && ok1).0;
      OnlyReturnsTwice(q, q1, q2);
      assert q.store.Some? == q1.store.Some? by { ReturnsStore(q, q1); }
      assert q.handItems == q.handItems[..n] + [x];
      if CanAccept(q, ItemSize(x)) {
        stowed, spilled, lost := [x] + a, b, c;
        StowedMore(q, q1, q2, x, a, b, c);
      } else if q1.refs != q.refs {
        stowed, spilled, lost := a, [x] + b, c;
        SpilledOneMore(q, q1, q2, x, a, b, c);
      } else {
        stowed, spilled, lost := a, b, [x] + c;
        LostMore(q, q1, q2, x, a, b, c);
      }
      if lost != [] {
        WhyLost(q, q1, q2, x, c != []);
      }
    }
  }

  lemma NothingReturned(q: Queue)
    requires q.handItems == []
    ensures OnlyReturns(q, q) && Dispersed(q, q, [], [], [])
  {
  }

  lemma ReturnsStore(q: Queue, q': Queue)
    requires OnlyReturns(q, q')
    ensures q.store.Some? == q'.store.Some?
  {
  }

  lemma StowedMore(q: Queue, q1: Queue, q2: Queue, x: Item, a: seq<Item>, b: seq<Item>, c: seq<Item>)
    requires q.handItems == q1.handItems + [x] && q1.mem == [x] + Reverse(q.mem) && q1.refs == q.refs
    requires q1.led.dropped == q.led.dropped && Dispersed(q1, q2, a, b, c)
    ensures Dispersed(q, q2, [x] + a, b, c)
  {
    hide SpilledAs, CanAccept;
    ReverseMemory(q.mem);
  }

  /** No room then is no room later. */
  lemma StillFull(q: Queue, q2: Queue, size: int)
    requires q2.cfg == q.cfg && q.memBytes <= q2.memBytes && |q.mem| <= |q2.mem| && !CanAccept(q, size)
    ensures !CanAccept(q2, size)
  {
  }

  lemma SpilledOneMore(q: Queue, q1: Queue, q2: Queue, x: Item, a: seq<Item>, b: seq<Item>, c: seq<Item>)
    requires q.handItems == q1.handItems + [x] && q1.mem == q.mem && SpilledAs(q.refs, q1.refs, [x])
    requires q1.led.dropped == q.led.dropped && Dispersed(q1, q2, a, b, c)
    requires OnlyReturns(q, q2) && !CanAccept(q, ItemSize(x))
    ensures Dispersed(q, q2, a, [x] + b, c)
  {
    hide SpilledAs, CanAccept, Flows;
    SpilledMore(q.refs, q1.refs, q2.refs, [x], b);
    StillFull(q, q2, ItemSize(x));
  }

  lemma LostMore(q: Queue, q1: Queue, q2: Queue, x: Item, a: seq<Item>, b: seq<Item>, c: seq<Item>)
    requires q.handItems == q1.handItems + [x] && q1.mem == q.mem && q1.refs == q.refs
    requires q1.led.dropped == q.led.dropped + {x.id} && Dispersed(q1, q2, a, b, c)
    requires OnlyReturns(q, q2) && !CanAccept(q, ItemSize(x))
    ensures Dispersed(q, q2, a, b, [x] + c)
  {
    hide SpilledAs, CanAccept, Flows;
    StillFull(q, q2, ItemSize(x));
  }

  /** The reason carries over to the whole. */
  lemma WhyLost(q: Queue, q1: Queue, q2: Queue, x: Item, later: bool)
    requires OnlyReturns(q, q1) && OnlyReturns(q1, q2) && q.handItems == q1.handItems + [x]
    requires q.store.Some? ==> q1.store.Some? && q1.store.value.total <= q.store.value.total + RecordSize(ItemRec(x))
    requires if later then NoPlace(q1, q2, q1.handItems) else NoPlace(q, q1, [x])
    ensures NoPlace(q, q2, q.handItems)
  {
    hide Flows, Faults, RecordSize, Slots;
    FlowsTwice(q, q1, q2);
    FlowsStore(q, q1);
    RecordBytesConcat(q1.handItems, [x]);
    assert [x][1..] == [] && RecordBytesOf([x]) == RecordSize(ItemRec(x)) + RecordBytesOf([]);
    if q.store.Some? {
      SameLimits(q, q1);
    }
  }

  // ---- The law ----

  /** The items a hand-back puts back fit the readers, hence the writer. */
  lemma {:induction false} BackEncodable(flight: map<Id, Entry>, ids: seq<Id>, charge: nat)
    requires forall id | id in flight && flight[id].MemEntry? :: Encodable(flight[id].item)
    ensures forall x | x in BackItems(flight, ids, charge) :: Encodable(x)
    decreases |ids|
  {
    if ids != [] {
      BackEncodable(flight - {ids[0]}, ids[1..], charge);
    }
  }

  lemma FlightEncodable(q: Queue)
    requires Inv(q)
    ensures forall id | id in q.inflight && q.inflight[id].MemEntry? :: Encodable(q.inflight[id].item)
  {
    hide Conserved, Holding, Placed, LogInv, ClaimsExact, Unsettled, Counted, Bounded, RefsOk, ItemsOk;
  }

  /** Bytes enough on disk for the acks of all the ids and for these items. */
  ghost predicate BackFits(q: Queue, ids: seq<Id>, items: seq<Item>)
    requires q.store.Some?
  {
    items == [] || RoomFor(q.store.value, AckBytesOf(ids) + RecordBytesOf(items))
  }

  /** Every id handed back that is in flight meets exactly one end. Out of attempts, it is retired, and
      durably so unless a write failed. A reference goes to the front, charged, in the order named. A
      memory item goes back to memory, charged, if it fits there; else it becomes the last reference;
      and it is dropped only if there is no disk tier, no slot, not enough bytes, or a failed write. */
  lemma NackLaw(q: Queue, ids: seq<Id>, kind: NackKind)
    returns (stowed: seq<Item>, spilled: seq<Item>, lost: seq<Item>)
    requires !q.closed && Good(q)
    ensures var (q', res) := Nack(q, ids, kind); var charge := ChargeOf(kind);
            var back, gone := BackItems(q.inflight, ids, charge), Retirees(q.inflight, ids, charge);
            && multiset(back) == multiset(stowed) + multiset(spilled) + multiset(lost)
            && multiset(q'.mem) == multiset(q.mem) + multiset(stowed)
            && SpilledAs(BackRefs(q.inflight, ids, charge) + q.refs, q'.refs, spilled)
            && q'.led.acked == q.led.acked
            && q'.led.dropped == q.led.dropped + IdsOfItems(lost) + (if kind.NackDelivered? then {} else gone)
            && q'.led.unrecorded == q.led.unrecorded + (if kind.NackDelivered? then gone else {})
            && (forall x | x in spilled || x in lost :: !CanAccept(q', ItemSize(x)))
            && (lost != [] ==> q.store.None? || RefsFull(q') || !BackFits(q, ids, back) || Faults(q, q'))
            && (Faults(q, q') || forall id | id in gone && OnDisk(q, id) :: id in q'.led.durable)
            && (if lost == [] || q.store.None? then res.Done? else res.Error?)
  {
    hide Inv, Booted, TakeBackAll, ReturnRefs, ReturnItems, Compact, Flows, Faults, BackItems, BackRefs, Retirees,
         RecordSize, Slots, SpilledAs, RecordBytesOf, AckBytesOf, OnDisk;
    var charge := ChargeOf(kind);
    TakeBackAllLaw(q, ids, kind);
    var q1 := TakeBackAll(q, ids, kind);
    var back := BackItems(q.inflight, ids, charge);
    assert [] + back == back && [] + BackRefs(q.inflight, ids, charge) == BackRefs(q.inflight, ids, charge);
    ReturnRefsPath(q1);
    var q2 := ReturnRefs(q1);
    FlightEncodable(q);
    BackEncodable(q.inflight, ids, charge);
    stowed, spilled, lost := ReturnItemsLaw(q2, true);
    var q3 := ReturnItems(q2, true).0;
    CompactFrame(q3);
    CompactFlows(q3);
    FlowsSame(q1, q2);
    FlowsTwice(q, q1, q2);
    FlowsTwice(q, q2, q3);
    FlowsTwice(q, q3, Compact(q3));
    FlowsStore(q, q2);
    if q.store.Some? {
      SameLimits(q, q1);
    }
  }

  // ---- One memory item ----

  /** A memory item with attempts left, handed back alone: to the front of memory if it fits there;
      else it is the last reference if the spill is written; else it is dropped and counted. */
  lemma NackOneItem(q: Queue, id: Id, kind: NackKind)
    requires !q.closed && Good(q) && id in q.inflight && q.inflight[id].MemEntry?
    requires Lives(q.inflight[id], ChargeOf(kind))
    ensures var (q', res) := Nack(q, [id], kind); var x := Charging(q.inflight[id].item, ChargeOf(kind));
            && id !in q'.inflight && q'.led.unrecorded == q.led.unrecorded
            && (if CanAccept(q, ItemSize(x)) then
                  && res.Done? && q'.mem == [x] + Reverse(q.mem) && q'.refs == q.refs && q'.led.dropped == q.led.dropped
                  && multiset(q'.mem) == multiset(q.mem) + multiset{x}
                else if q'.refs != q.refs then
                  && res.Done? && q'.mem == q.mem && SpilledAs(q.refs, q'.refs, [x]) && q'.led.dropped == q.led.dropped
                else
                  && q'.mem == q.mem && q'.led.dropped == q.led.dropped + {x.id} && (res.Done? <==> q.store.None?)
                  && NoPlace(q, q', [x]))
  {
    hide Inv, Booted, TakeBackAll, ReturnItem, Compact, Flows, Faults, RecordSize, Slots, SpilledAs, Reverse, Retirees;
    var charge := ChargeOf(kind);
    var x := Charging(q.inflight[id].item, charge);
    TakeBackAllLaw(q, [id], kind);
    EndsOf(q.inflight, id, charge);
    assert Retirees(q.inflight, [id], charge) == {} by { NoRetirees(q.inflight, id, charge); }
    var q1 := TakeBackAll(q, [id], kind);
    OneTaken(q, id, kind);
    assert ReturnRefs(q1) == q1;
    FlightEncodable(q);
    ReturnItemLaw(q1);
    var q2 := ReturnItem(q1).0;
    assert ReturnItems(q1, true) == (q2, ReturnItem(q1).1) by { OneReturn(q1); }
    CompactFrame(q2);
    CompactFlows(q2);
    FlowsTwice(q1, q2, Compact(q2));
    FlowsAlike(q, q1, Compact(q2), Compact(q2));
    ReverseMemory(q.mem);
    SameRefsFull(q2, Compact(q2));
  }

  lemma SameRefsFull(a: Queue, b: Queue)
    requires a.refs == b.refs && a.cfg == b.cfg
    ensures RefsFull(a) == RefsFull(b)
  {
  }

  lemma OneReturn(q: Queue)
    requires |q.handItems| == 1
    ensures ReturnItems(q, true) == ReturnItem(q)
  {
    hide ReturnItem;
    ReturnShrinks(q);
  }

  lemma NoRetirees(flight: map<Id, Entry>, id: Id, charge: nat)
    requires id in flight && Lives(flight[id], charge)
    ensures Retirees(flight, [id], charge) == {}
  {
  }

  lemma OneTaken(q: Queue, id: Id, kind: NackKind)
    requires id in q.inflight && q.inflight[id].MemEntry? && Lives(q.inflight[id], ChargeOf(kind))
    ensures var q1 := TakeBackAll(q, [id], kind); q1.store == q.store && q1.inflight == q.inflight - {id}
  {
    assert [id][1..] == [];
    assert TakeBackAll(q, [id], kind) == TakeBack(q, id, kind);
  }

  // ---- Attempts ----

  lemma {:induction false} BackHas(flight: map<Id, Entry>, ids: seq<Id>, charge: nat, id: Id)
    requires id in ids && id in flight && Lives(flight[id], charge)
    ensures flight[id].MemEntry? ==> Charging(flight[id].item, charge) in BackItems(flight, ids, charge)
    ensures flight[id].RefEntry? ==>
              flight[id].ref.(attempts := flight[id].ref.attempts + charge) in BackRefs(flight, ids, charge)
    decreases |ids|
  {
    if ids[0] != id {
      BackHas(flight - {ids[0]}, ids[1..], charge, id);
    }
  }

  /** Kept somewhere with this many attempts: as a reference, or in memory. */
  ghost predicate KeptWith(q: Queue, id: Id, attempts: int) {
    || (exists r :: r in q.refs && r.id == id && r.attempts == attempts)
    || (exists x :: x in q.mem && x.id == id && x.attempts == attempts)
  }

  /** Over a whole hand-back: an item is retired exactly when the attempts it came with and its charges
      pass the limit. Otherwise it is kept with that count, unless it was a memory item for which
      there was no place, which is dropped. */
  lemma NackAttempts(q: Queue, ids: seq<Id>, kind: NackKind, id: Id)
    requires !q.closed && Good(q) && id in ids && id in q.inflight
    ensures id in q.led.start
    ensures var q' := Nack(q, ids, kind).0; var tried := q.led.start[id] + Charges(q, id) + ChargeOf(kind);
            var out := id in q'.led.dropped + q'.led.unrecorded;
            && (tried > MAX_ATTEMPTS ==> out)
            && (tried <= MAX_ATTEMPTS && !out ==> KeptWith(q', id, tried))
            && (tried <= MAX_ATTEMPTS && out ==>
                  q.inflight[id].MemEntry? && !CanAccept(q', ItemSize(q.inflight[id].item)))
  {
    hide Inv, Booted, Nack, Flows, Faults, BackItems, BackRefs, RecordSize, Slots, RecordBytesOf, AckBytesOf, OnDisk;
    var charge := ChargeOf(kind);
    FlightFacts(q, id);
    FlightNoFate(q, id);
    FlightKeys(q);
    var stowed, spilled, lost := NackLaw(q, ids, kind);
    var q' := Nack(q, ids, kind).0;
    var e, back, refs := q.inflight[id], BackItems(q.inflight, ids, charge), BackRefs(q.inflight, ids, charge);
    if Lives(e, charge) {
      BackHas(q.inflight, ids, charge, id);
      if e.RefEntry? {
        var r := e.ref.(attempts := e.ref.attempts + charge);
        assert r in refs + q.refs && r in q'.refs by { FrontKept(refs + q.refs, q'.refs, spilled, r); }
        forall x | x in lost ensures x.id != id {
          assert x in multiset(lost) && x in multiset(back);
          BackOnly(q.inflight, ids, charge, x);
        }
      } else {
        var x := Charging(e.item, charge);
        assert x in multiset(stowed) + multiset(spilled) + multiset(lost);
        if x in stowed {
          assert x in multiset(stowed) && x in multiset(q'.mem);
        } else if x in spilled {
          var i :| 0 <= i < |spilled| && spilled[i] == x;
          assert q'.refs[|refs + q.refs| + i] in q'.refs;
        }
        if id in q'.led.dropped {
          assert id in IdsOfItems(lost);
          var y :| y in lost && y.id == id;
          assert y in multiset(lost) && y in multiset(back);
          BackOnly(q.inflight, ids, charge, y);
        }
      }
    }
  }

  lemma FrontKept(a: seq<DiskRef>, b: seq<DiskRef>, xs: seq<Item>, r: DiskRef)
    requires SpilledAs(a, b, xs) && r in a
    ensures r in b
  {
  }

  lemma FlightKeys(q: Queue)
    requires Inv(q)
    ensures forall k | k in q.inflight :: EntryId(q.inflight[k]) == k
  {
    hide Conserved, Holding, LogInv, ClaimsExact, Unsettled, TriedAll, Counted, Bounded, RefBag;
  }

  lemma {:induction false} BackOnly(flight: map<Id, Entry>, ids: seq<Id>, charge: nat, x: Item)
    requires x in BackItems(flight, ids, charge) && forall k | k in flight :: EntryId(flight[k]) == k
    ensures x.id in flight && flight[x.id].MemEntry? && x == Charging(flight[x.id].item, charge)
    decreases |ids|
  {
    var fewer := flight - {ids[0]};
    if !(ids[0] in flight && flight[ids[0]].MemEntry? && x == Charging(flight[ids[0]].item, charge)) {
      BackOnly(fewer, ids[1..], charge, x);
    }
  }
}
