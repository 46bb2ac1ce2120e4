/** When an arrival is accepted, and what a clean close keeps: exactly what fits, and nothing else
    unless a write fails. */
module QueueAdmission {
  import opened WalCodec
  import opened Wal
  import opened SpillDisk
  import opened DiskFaults
  import opened QueueModel
  import opened QueueInvariant
  import opened QueueRuns
  import opened QueueFlows
  import opened QueueFifo

  // ---- Sizes ----

  /** What the records of these items take on disk. */
  function RecordBytesOf(items: seq<Item>): nat {
    if items == [] then 0 else RecordSize(ItemRec(items[0])) + RecordBytesOf(items[1..])
  }

  lemma {:induction false} RecordBytesConcat(a: seq<Item>, b: seq<Item>)
    ensures RecordBytesOf(a + b) == RecordBytesOf(a) + RecordBytesOf(b)
    decreases |a|
  {
    hide RecordSize;
    if a == [] {
      assert a + b == b;
    } else {
      assert (a + b)[1..] == a[1..] + b;
      RecordBytesConcat(a[1..], b);
    }
  }

  lemma RecordBytesFirst(items: seq<Item>, k: nat)
    requires 0 < k <= |items|
    ensures RecordBytesOf(items[..k]) == RecordSize(ItemRec(items[0])) + RecordBytesOf(items[1..][..k - 1])
  {
    hide RecordSize;
    assert items[..k][1..] == items[1..][..k - 1];
  }

  /** The slot and the byte limit of memory, were the first i items gone. */
  predicate FitsAfter(q: Queue, size: int, i: nat)
    requires i <= |q.mem|
  {
    SumSizes(q.mem[i..]) + size <= q.cfg.maxMemory && |q.mem| - i < Slots(q.cfg.maxMemory)
  }

  /** k is the least number of items to spill for the arrival to fit in memory: all of them if it
      never fits. */
  ghost predicate MustSpill(q: Queue, size: int, k: nat) {
    && k <= |q.mem|
    && (forall i | 0 <= i < k :: !FitsAfter(q, size, i))
    && (k < |q.mem| ==> FitsAfter(q, size, k))
  }

  /** There is always such a number. */
  lemma LeastSpill(q: Queue, size: int) returns (k: nat)
    ensures MustSpill(q, size, k)
  {
    k := 0;
    while k < |q.mem| && !FitsAfter(q, size, k)
      invariant k <= |q.mem| && forall i | 0 <= i < k :: !FitsAfter(q, size, i)
    {
      k := k + 1;
    }
  }

  // ---- Spilling ----

  /** The references after those there were are the items', in order. */
  ghost predicate SpilledAs(refs: seq<DiskRef>, refs': seq<DiskRef>, items: seq<Item>) {
    && |refs'| == |refs| + |items| && refs <= refs'
    && forall i | 0 <= i < |items| ::
         var r := refs'[|refs| + i];
         r.id == items[i].id && r.enqueuedAt == items[i].enqueuedAt && r.attempts == items[i].attempts
  }

  lemma SpilledMore(a: seq<DiskRef>, b: seq<DiskRef>, c: seq<DiskRef>, xs: seq<Item>, ys: seq<Item>)
    requires SpilledAs(a, b, xs) && SpilledAs(b, c, ys)
    ensures SpilledAs(a, c, xs + ys)
  {
  }

  lemma SpilledNone(a: seq<DiskRef>)
    ensures SpilledAs(a, a, [])
  {
  }

  /** Reference slots for n more; none are needed for nothing, though the slots may be overdrawn. */
  ghost predicate SlotsFor(q: Queue, n: nat) {
    n == 0 || |q.refs| + n <= Slots(DiskBudget(q.cfg))
  }

  ghost predicate BytesFor(q: Queue, items: seq<Item>)
    requires q.store.Some?
  {
    items == [] || RoomFor(q.store.value, RecordBytesOf(items))
  }

  /** A spill writes the item exactly when the codec takes it and the bytes fit, unless the write
      fails. */
  lemma SpillLaw(q: Queue, item: Item)
    requires q.store.Some?
    ensures var (q', res) := SpillItem(q, item); var size := RecordSize(ItemRec(item));
            && Flows(q, q') && q'.store.Some?
            && q' == q.(store := q'.store, refs := q'.refs, diskCount := q'.diskCount, claims := q'.claims,
                        led := q'.led)
            && (res.Written? ==> Encodable(item) && RoomFor(q.store.value, size) && SpilledAs(q.refs, q'.refs, [item])
                                 && q'.store.value.total == q.store.value.total + size)
            && (!res.Written? ==> q' == q.(store := q'.store) && q'.store.value.total == q.store.value.total
                                  && (!Encodable(item) || !RoomFor(q.store.value, size) || Faults(q, q')))
            && (res.Full? ==> Encodable(item) && !RoomFor(q.store.value, size))
            && (!Encodable(item) ==> !res.Written? && !res.Full?)
            && q'.led.dropped == q.led.dropped && q'.led.lost == q.led.lost
  {
    hide Append, RecordSize, Follows, Faulty, Claim, RoomFor;
    FollowsSelf(q.store.value);
    AppendLaw(q.store.value, ItemRec(item));
    FullMeans(q.store.value, ItemRec(item));
  }

  lemma FullMeans(d: Disk, r: Record)
    ensures Append(d, r).1.Full? ==> !RoomFor(d, RecordSize(r))
  {
    hide SegmentSize, RecordSize;
  }

  // ---- Making room ----

  lemma EvictLaw(q: Queue)
    requires q.mem != [] && q.store.Some? && Encodable(q.mem[0]) && q.memBytes == SumSizes(q.mem)
    ensures var (q', ok) := Evict(q); var size := RecordSize(ItemRec(q.mem[0]));
            && Flows(q, q') && q'.store.Some? && q'.cfg == q.cfg && q'.closed == q.closed
            && q'.led.dropped == q.led.dropped && q'.led.lost == q.led.lost
            && (ok ==> q'.mem == q.mem[1..] && q'.memBytes == SumSizes(q'.mem) && SpilledAs(q.refs, q'.refs, [q.mem[0]])
                       && SlotsFor(q, 1) && RoomFor(q.store.value, size)
                       && q'.store.value.total == q.store.value.total + size)
            && (!ok ==> q'.mem != [] && (!SlotsFor(q, 1) || !RoomFor(q.store.value, size) || Faults(q, q')))
  {
    hide SpillItem, SumSizes, RecordSize, Flows, Faults, RoomFor, SpilledAs;
    SumSizesHead(q.mem);
    FlowsSame(q, q);
    var q1 := Take(q);
    FlowsSame(q, q1);
    SpillLaw(q1, q.mem[0]);
    var q2 := SpillItem(q1, q.mem[0]).0;
    FlowsAlike(q, q1, q2, q2);
    FlowsAlike(q, q1, q2, Put(q2, q.mem[0]));
    FlowsSame(q, Put(q1, q.mem[0]));
  }

  /** Making room spills exactly the least number of items, or fails for want of slots or bytes or
      because a write failed. */
  lemma {:induction false} MakeRoomLaw(q: Queue, size: int, k: nat)
    requires q.store.Some? && q.memBytes == SumSizes(q.mem) && MustSpill(q, size, k)
    requires forall x | x in q.mem :: Encodable(x)
    ensures var (q', ok) := MakeRoom(q, size); var bytes := RecordBytesOf(q.mem[..k]);
            && Flows(q, q') && q'.store.Some? && q'.cfg == q.cfg && q'.closed == q.closed
            && q'.led.dropped == q.led.dropped && q'.led.lost == q.led.lost
            && (ok ==> q'.mem == q.mem[k..] && q'.memBytes == SumSizes(q'.mem) && SpilledAs(q.refs, q'.refs, q.mem[..k])
                       && SlotsFor(q, k) && BytesFor(q, q.mem[..k])
                       && q'.store.value.total == q.store.value.total + bytes)
            && (!ok ==> q'.mem != [] && (!SlotsFor(q, k) || !BytesFor(q, q.mem[..k]) || Faults(q, q')))
    decreases |q.mem|
  {
    hide Evict, SumSizes, RecordSize, Flows, Faults, SpilledAs, Slots;
    FlowsSame(q, q);
    assert CanAccept(q, size) <==> FitsAfter(q, size, 0) by { assert q.mem[0..] == q.mem; }
    if CanAccept(q, size) || q.mem == [] {
      assert k == 0 && q.mem[..0] == [] && q.mem[0..] == q.mem;
      SpilledNone(q.refs);
    } else {
      EvictLaw(q);
      var (q1, ok) := Evict(q);
      assert k > 0;
      RecordBytesFirst(q.mem, k);
      if ok {
        OneLess(q, q1, size, k);
        MakeRoomLaw(q1, size, k - 1);
        var q2 := MakeRoom(q1, size).0;
        FlowsTwice(q, q1, q2);
        assert q.mem[1..][k - 1..] == q.mem[k..] && [q.mem[0]] + q.mem[1..][..k - 1] == q.mem[..k];
        assert |q1.refs| == |q.refs| + 1 by { SpilledSize(q.refs, q1.refs, [q.mem[0]]); }
        if MakeRoom(q1, size).1 {
          SpilledMore(q.refs, q1.refs, q2.refs, [q.mem[0]], q.mem[1..][..k - 1]);
        }
        SameLimits(q, q1);
      }
    }
  }

  lemma SpilledSize(a: seq<DiskRef>, b: seq<DiskRef>, xs: seq<Item>)
    requires SpilledAs(a, b, xs)
    ensures |b| == |a| + |xs|
  {
  }

  lemma SameLimits(q: Queue, q': Queue)
    requires Flows(q, q') && q.store.Some?
    ensures q'.store.Some? && q'.store.value.maxBytes == q.store.value.maxBytes
  {
  }

  lemma OneLess(q: Queue, q1: Queue, size: int, k: nat)
    requires MustSpill(q, size, k) && k > 0 && q1.mem == q.mem[1..] && q1.cfg == q.cfg
    ensures MustSpill(q1, size, k - 1)
  {
    hide SumSizes, Slots;
    forall i | 0 <= i <= |q1.mem| ensures FitsAfter(q1, size, i) == FitsAfter(q, size, i + 1) {
      assert q1.mem[i..] == q.mem[i + 1..];
    }
  }

  // ---- Arrivals ----

  /** What an arrival has to put on disk: the items that make room, and itself if it is larger than
      memory. */
  ghost function ToDisk(q: Queue, item: Item, k: nat): seq<Item>
    requires k <= |q.mem|
  {
    q.mem[..k] + if ItemSize(item) > q.cfg.maxMemory then [item] else []
  }

  ghost predicate EnqueueOutcome(q: Queue, item: Item, k: nat, q': Queue, res: EnqueueResult)
    requires k <= |q.mem| && q.store.Some? && q'.store.Some?
  {
    var big, spilled := ItemSize(item) > q.cfg.maxMemory, ToDisk(q, item, k);
    var able := SlotsFor(q, |spilled|) && BytesFor(q, spilled) && (big ==> Encodable(item));
    match res
    case Accepted =>
      && able && SpilledAs(q.refs, q'.refs, spilled) && q'.mem == q.mem[k..] + (if big then [] else [item])
    case Waits =>
      && big && k == |q.mem| && q'.mem == [] && SpilledAs(q.refs, q'.refs, q.mem)
      && (RefsFull(q') || !RoomFor(q'.store.value, RecordSize(ItemRec(item)))) && !able
    case Failed => Faults(q, q') || !able
    case _ => false
  }

  /** Over a disk tier, an arrival at an open queue is accepted exactly when what it displaces, and it
      itself if it is larger than memory, fits the reference slots and the byte cap, unless a write
      fails. It displaces the least number of items, the oldest, and goes behind the rest. It waits
      only if it is larger than memory, memory is spilled empty and the disk cannot take it; and it
      fails only for a failing write, or if what it displaces does not fit. */
  lemma EnqueueLaw(q: Queue, item: Item, k: nat)
    requires q.store.Some? && !q.closed && MustSpill(q, ItemSize(item), k)
    requires Inv(q)
    ensures var (q', res) := Enqueue(q, item);
            && Flows(q, q') && q'.store.Some? && EnqueueOutcome(q, item, k, q', res)
            && q'.led.dropped == q.led.dropped && q'.led.lost == q.led.lost && !q'.closed
  {
    hide Inv, MakeRoom, SpillItem, SumSizes, RecordSize, Flows, Faults, SpilledAs, RoomFor, RecordBytesOf, MustSpill;
    var size := ItemSize(item);
    var big := size > q.cfg.maxMemory;
    InvCounted(q);
    MemFits(q);
    FitsNow(q, size, k);
    assert k <= |q.mem| by { SpillBound(q, size, k); }
    BytesOf(q, item, k);
    MakeRoomLaw(q, size, k);
    FlowsSame(q, Accept(q, item));
    if CanAccept(q, size) {
      assert q.mem[..0] == [] && q.mem[0..] == q.mem;
      SpilledNone(q.refs);
    } else {
      var (q1, ok) := MakeRoom(q, size);
      if ok {
        FitsThen(q, q1, size, k);
        FlowsSame(q1, Accept(q1, item));
        FlowsTwice(q, q1, Accept(q1, item));
        if !CanAccept(q1, size) {
          StraightLaw(q, q1, item);
        } else {
          assert q.mem[..k] + [] == q.mem[..k];
        }
      } else {
        NotAble(q, item, k);
      }
    }
  }

  lemma SpillBound(q: Queue, size: int, k: nat)
    requires MustSpill(q, size, k)
    ensures k <= |q.mem|
  {
  }

  lemma FitsNow(q: Queue, size: int, k: nat)
    requires MustSpill(q, size, k) && q.memBytes == SumSizes(q.mem) && size >= 0
    ensures CanAccept(q, size) ==> k == 0 && size <= q.cfg.maxMemory
    ensures size > q.cfg.maxMemory ==> k == |q.mem|
  {
    hide SumSizes, Slots;
    assert q.mem[0..] == q.mem;
    if k < |q.mem| {
      assert FitsAfter(q, size, k);
    }
    assert CanAccept(q, size) ==> FitsAfter(q, size, 0);
  }

  lemma FitsThen(q: Queue, q1: Queue, size: int, k: nat)
    requires MustSpill(q, size, k) && q1.mem == q.mem[k..] && q1.memBytes == SumSizes(q1.mem) && q1.cfg == q.cfg
    ensures CanAccept(q1, size) <==> size <= q.cfg.maxMemory
    ensures size > q.cfg.maxMemory ==> k == |q.mem| && q1.mem == [] && q.mem[..k] == q.mem
  {
    if k < |q.mem| {
      assert FitsAfter(q, size, k);
    }
  }

  lemma BytesOf(q: Queue, item: Item, k: nat)
    requires k <= |q.mem|
    ensures ItemSize(item) > q.cfg.maxMemory ==>
              RecordBytesOf(ToDisk(q, item, k)) == RecordBytesOf(q.mem[..k]) + RecordSize(ItemRec(item))
    ensures ItemSize(item) <= q.cfg.maxMemory ==> ToDisk(q, item, k) == q.mem[..k]
  {
    hide RecordSize;
    assert [item][1..] == [] && RecordBytesOf([item]) == RecordSize(ItemRec(item)) + RecordBytesOf([]);
    RecordBytesConcat(q.mem[..k], [item]);
    assert q.mem[..k] + [] == q.mem[..k];
  }

  lemma NotAble(q: Queue, item: Item, k: nat)
    requires k <= |q.mem| && q.store.Some?
    ensures !SlotsFor(q, k) ==> !SlotsFor(q, |ToDisk(q, item, k)|)
    ensures !BytesFor(q, q.mem[..k]) ==> !BytesFor(q, ToDisk(q, item, k))
  {
    hide RecordSize, RecordBytesOf;
    BytesOf(q, item, k);
  }

  /** An item larger than memory, once memory is spilled. */
  lemma StraightLaw(q: Queue, q1: Queue, item: Item)
    requires q.store.Some? && q1.store.Some? && ItemSize(item) > q.cfg.maxMemory && q1.cfg == q.cfg && q1.mem == []
    requires Flows(q, q1) && SpilledAs(q.refs, q1.refs, q.mem) && SlotsFor(q, |q.mem|)
    requires BytesFor(q, q.mem)
    requires q1.store.value.total == q.store.value.total + RecordBytesOf(q.mem)
    ensures RefsFull(q1) ==> EnqueueOutcome(q, item, |q.mem|, q1, Waits)
    ensures var (q2, res) := SpillItem(q1, item);
            && q2.store.Some? && Flows(q, q2) && Flows(q, Admit(q2, item)) && q2.closed == q1.closed
            && q2.led.dropped == q1.led.dropped && q2.led.lost == q1.led.lost
            && (!RefsFull(q1) ==>
                  match res
                  case Written(_, _) => EnqueueOutcome(q, item, |q.mem|, Admit(q2, item), Accepted)
                  case Full => EnqueueOutcome(q, item, |q.mem|, q2, Waits)
                  case _ => EnqueueOutcome(q, item, |q.mem|, q2, Failed))
  {
    hide SpillItem, RecordSize, RecordBytesOf, SpilledAs, Slots, Flows, Faults;
    assert q.mem[..|q.mem|] == q.mem && q.mem[|q.mem|..] == [];
    BytesOf(q, item, |q.mem|);
    SpilledSize(q.refs, q1.refs, q.mem);
    SameLimits(q, q1);
    SpillLaw(q1, item);
    var (q2, res) := SpillItem(q1, item);
    FlowsTwice(q, q1, q2);
    SameLimits(q, q2);
    FlowsSame(q2, Admit(q2, item));
    FlowsTwice(q, q2, Admit(q2, item));
    if res.Written? {
      SpilledMore(q.refs, q1.refs, q2.refs, q.mem, [item]);
    }
  }

  // ---- Without a disk tier ----

  /** One pass without a disk tier: the oldest item makes way, counted, when there is no room, and the
      arrival goes behind the rest exactly when it then fits. */
  lemma MemoryOnlyLaw(q: Queue, item: Item)
    requires q.store.None? && !q.closed && q.refs == []
    requires Inv(q)
    ensures var (q', res) := Enqueue(q, item); var size := ItemSize(item);
            var drop := if FitsAfter(q, size, 0) || q.mem == [] then 0 else 1;
            && q'.led.dropped == q.led.dropped + (if drop == 1 then {q.mem[0].id} else {})
            && q'.mem == q.mem[drop..] + (if res.Accepted? then [item] else [])
            && (res.Accepted? <==> FitsAfter(q, size, drop)) && (!res.Accepted? ==> res.Retries?)
  {
    hide Inv, SumSizes, Slots;
    InvCounted(q);
    assert q.mem[0..] == q.mem;
    if q.mem != [] {
      SumSizesHead(q.mem);
    }
    assert q.mem + [] == q.mem;
  }

  // ---- Closing ----

  /** The items that still get a reference slot at the close, of those in memory. */
  ghost function Slotted(q: Queue): nat {
    var free := Slots(DiskBudget(q.cfg)) - |q.refs|;
    if free <= 0 then 0 else if free < |q.mem| then free else |q.mem|
  }

  ghost function IdsOfItems(items: seq<Item>): set<Id> {
    set x | x in items :: x.id
  }

  lemma FlushOneLaw(q: Queue)
    requires q.mem != [] && q.store.Some? && Encodable(q.mem[0])
    ensures var (q', ok) := FlushOne(q); var size := RecordSize(ItemRec(q.mem[0]));
            && Flows(q, q') && q'.store.Some? && q'.cfg == q.cfg && q'.mem == q.mem[1..]
            && (Slotted(q) == 0 ==>
                  ok && q'.refs == q.refs && q'.led.dropped == q.led.dropped + {q.mem[0].id} && q'.store == q.store)
            && (Slotted(q) > 0 ==> q'.led.dropped == q.led.dropped)
            && (Slotted(q) > 0 && ok ==> SpilledAs(q.refs, q'.refs, [q.mem[0]])
                                         && q'.store.value.total == q.store.value.total + size)
            && (!ok ==> Slotted(q) > 0 && (!RoomFor(q.store.value, size) || Faults(q, q')))
            && (ok ==> q'.led.lost == q.led.lost)
  {
    hide SpillItem, RecordSize, Flows, Faults, RoomFor, SpilledAs, Slots;
    var q1 := Take(q);
    FlowsSame(q, q1);
    SpillLaw(q1, q.mem[0]);
    var q2 := SpillItem(q1, q.mem[0]).0;
    FlowsAlike(q, q1, q2, q2);
    if Slotted(q) > 0 {
      FlowsAlike(q, q1, q2, FlushOne(q).0);
    }
    FlowsSame(q, CountDrop(q1, q.mem[0].id));
  }

  /** Flushing spills memory in order as far as the slots go and drops the rest, counted. */
  lemma {:induction false} FlushLaw(q: Queue)
    requires q.store.Some? && forall x | x in q.mem :: Encodable(x)
    ensures var (q', ok) := Flush(q); var m := Slotted(q);
            && Flows(q, q') && q'.store.Some?
            && (ok ==> q'.mem == [] && SpilledAs(q.refs, q'.refs, q.mem[..m]) && q'.led.lost == q.led.lost
                       && q'.led.dropped == q.led.dropped + IdsOfItems(q.mem[m..]))
            && (!ok ==> !BytesFor(q, q.mem[..m]) || Faults(q, q'))
    decreases |q.mem|
  {
    hide FlushOne, RecordSize, Flows, Faults, SpilledAs, Slots;
    FlowsSame(q, q);
    if q.mem == [] {
      SpilledNone(q.refs);
      assert q.mem[..0] == [] && q.mem[0..] == [];
    } else {
      FlushOneLaw(q);
      var (q1, ok) := FlushOne(q);
      var m := Slotted(q);
      if ok {
        FlushLaw(q1);
        var q2 := Flush(q1).0;
        FlowsTwice(q, q1, q2);
        SameLimits(q, q1);
        if m == 0 {
          assert q.mem[..0] == [] && q.mem[1..][..0] == [] && q.mem[0..] == [q.mem[0]] + q.mem[1..];
          assert q.mem[1..][0..] == q.mem[1..];
        } else {
          SpilledSize(q.refs, q1.refs, [q.mem[0]]);
          RecordBytesFirst(q.mem, m);
          assert q.mem[1..][m - 1..] == q.mem[m..] && [q.mem[0]] + q.mem[1..][..m - 1] == q.mem[..m];
          if Flush(q1).1 {
            SpilledMore(q.refs, q1.refs, q2.refs, [q.mem[0]], q.mem[1..][..m - 1]);
          }
        }
      } else {
        RecordBytesFirst(q.mem, m);
      }
    }
  }

  /** A close leaves the memory items as references behind those there were, in order, as far as the
      slots go; the rest is dropped and counted, and nothing is lost. It fails only if the records do
      not fit or a write fails. */
  lemma CloseLaw(q: Queue)
    requires q.store.Some? && !q.closed
    requires Inv(q)
    ensures var (q', res) := Close(q); var m := Slotted(q);
            && q'.closed && q'.store.Some? && (res.Done? || res.Error?)
            && (res.Done? ==> q'.mem == [] && SpilledAs(q.refs, q'.refs, q.mem[..m]) && q'.led.lost == q.led.lost
                              && q'.led.dropped == q.led.dropped + IdsOfItems(q.mem[m..]) && q'.store.value.closed)
            && (res.Error? ==> !BytesFor(q, q.mem[..m]) || Faults(q, q'))
  {
    hide Inv, Flush, RecordBytesOf, SpilledAs, Flows, Faults, Slots;
    MemFits(q);
    var q0 := q.(closed := true);
    FlushLaw(q0);
    FlowsAlike(q, q0, Flush(q0).0, Flush(q0).0);
    CloseStays(q);
  }

  lemma CloseStays(q: Queue)
    requires !q.closed
    ensures Close(q).0.closed
  {
    hide Flush;
    CloseIs(q.(closed := true));
  }

  lemma {:induction false} CloseIs(q: Queue)
    ensures Flush(q).0.closed == q.closed
    decreases |q.mem|
  {
    hide FlushOne;
    if q.mem != [] && q.store.Some? {
      FlushKeeps(q);
      CloseIs(FlushOne(q).0);
    }
  }

  lemma FlushKeeps(q: Queue)
    requires q.mem != [] && q.store.Some?
    ensures FlushOne(q).0.closed == q.closed && FlushOne(q).0.mem == q.mem[1..]
  {
    hide AppendItem;
  }
}
