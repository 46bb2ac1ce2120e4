/** The queue's operations broken into steps that write the disk at most once. A crash is the step
    that forgets memory and boots from the files, so it may come between any two writes. */
module QueueSteps {
  import opened Bytes
  import opened WalCodec
  import opened Wal
  import opened SpillDisk
  import opened WalLog
  import opened QueueModel
  import opened QueueInvariant

  datatype Fate = FateAcked | FateDropped | FateUnrecorded | FateLost

  datatype Step =
    | Fresh(item: Item)                        // a new item arrives
    | Grab | Stow | StowFront | SpillHand      // memory to hand; hand to memory, its front, or disk
    | ItemFate(fate: Fate, charge: nat)        // the hand item is gone
    | GrabRef | ReturnRef                      // first reference to hand and back
    | RefFate(fate: Fate, charge: nat)         // the hand reference is gone, its ack attempted
    | ToFlightRef(now: int) | ToFlightItem(now: int) | FromFlight(id: Id)
    | ChargeRef | ChargeItem
    | Reclaim                                  // the lowest spent segment is deleted
    | Quietly(d: Disk)                         // the store moves without writing a record
    | SetClosed
    | Crash(cfg: Config, io: nat -> IO) | AdoptRef(ref: DiskRef) | CutOffRef(ref: DiskRef)

  /** Two stores a replay cannot tell apart record by record: same files, or one new empty file. */
  ghost predicate Quiet(a: Segments, b: Segments) {
    b == a || b == a + [Some([])]
  }

  function MarkFate(q: Queue, id: Id, fate: Fate): Queue {
    match fate
    case FateAcked => q.(led := q.led.(acked := q.led.acked + {id}))
    case FateDropped => CountDrop(q, id)
    case FateUnrecorded =>
      q.(unrecordedTotal := q.unrecordedTotal + 1, led := q.led.(unrecorded := q.led.unrecorded + {id}))
    case FateLost => q.(led := q.led.(lost := q.led.lost + {id}))
  }

  function Charged(q: Queue, id: Id, charge: nat): Queue {
    if charge == 0 then q else
    q.(led := q.led.(charges := q.led.charges[id := Charges(q, id) + charge]))
  }

  function HandItem(q: Queue): Item
    requires q.handItems != []
  {
    q.handItems[|q.handItems| - 1]
  }

  function HandRef(q: Queue): DiskRef
    requires q.handRefs != []
  {
    q.handRefs[|q.handRefs| - 1]
  }

  function LessItem(q: Queue): Queue
    requires q.handItems != []
  {
    q.(handItems := q.handItems[..|q.handItems| - 1])
  }

  function LessRef(q: Queue): Queue
    requires q.handRefs != []
  {
    q.(handRefs := q.handRefs[..|q.handRefs| - 1])
  }

  function RefToHand(q: Queue): Queue
    requires q.refs != []
  {
    q.(refs := q.refs[1..], diskCount := q.diskCount - 1, handRefs := q.handRefs + [q.refs[0]])
  }

  function RefGone(q: Queue, fate: Fate, charge: nat): Queue
    requires q.handRefs != []
  {
    var ref := HandRef(q);
    MarkFate(Settle(Release(Charged(LessRef(q), ref.id, charge), ref), ref.id), ref.id, fate)
  }

  function ItemGone(q: Queue, fate: Fate, charge: nat): Queue
    requires q.handItems != []
  {
    var item := HandItem(q);
    MarkFate(Charged(LessItem(q), item.id, charge), item.id, fate)
  }

  function RefCharged(q: Queue): Queue
    requires q.handRefs != []
  {
    var r := HandRef(q);
    Charged(q.(handRefs := LessRef(q).handRefs + [r.(attempts := r.attempts + 1)]), r.id, 1)
  }

  function ItemCharged(q: Queue): Queue
    requires q.handItems != []
  {
    var x := HandItem(q);
    Charged(q.(handItems := LessItem(q).handItems + [x.(attempts := x.attempts + 1)]), x.id, 1)
  }

  function OutOfFlight(q: Queue, id: Id): Queue
    requires id in q.inflight
  {
    var q1 := q.(inflight := q.inflight - {id});
    match q.inflight[id]
    case RefEntry(ref, _) => q1.(handRefs := q.handRefs + [ref])
    case MemEntry(item, _) => q1.(handItems := q.handItems + [item])
  }

  function Crashed(q: Queue, cfg: Config, io: nat -> IO): Queue {
    if q.store.Some? then Boot(cfg, q.store.value.segs, io, q.led)
    else EmptyQueue(cfg, None, 0, NO_HISTORY.(seen := q.led.seen))
  }

  ghost predicate Enabled(q: Queue, step: Step) {
    match step
    case Fresh(item) => item.id !in q.led.seen && Fits(item)
    case Grab => q.mem != []
    case Stow => q.handItems != [] && CanAccept(q, ItemSize(HandItem(q)))
    case StowFront => q.handItems != [] && CanAccept(q, ItemSize(HandItem(q)))
    case SpillHand =>
      && q.handItems != [] && q.handRefs == [] && q.store.Some? && !RefsFull(q)
      && SpillItem(LessItem(q), HandItem(q)).1.Written?
    case ItemFate(_, _) => q.handItems != []
    case GrabRef => q.refs != []
    case ReturnRef => q.handRefs != []
    case RefFate(fate, _) =>
      && q.handRefs != [] && q.store.Some? && !fate.FateLost?
      && (fate.FateAcked? ==> AppendAck(q.store.value, HandRef(q).id).1.Written?)
    case ToFlightRef(_) => q.handRefs != []
    case ToFlightItem(_) => q.handItems != []
    case FromFlight(id) => id in q.inflight
    case ChargeRef => q.handRefs != [] && HandRef(q).attempts < MAX_ATTEMPTS
    case ChargeItem => q.handItems != [] && HandItem(q).attempts < MAX_ATTEMPTS
    case Reclaim => Spent(q) && RemoveLowest(q).1
    case Quietly(d) => q.store.Some? && Quiet(q.store.value.segs, d.segs)
    case SetClosed => true
    case Crash(cfg, _) => cfg.maxMemory > 0
    case AdoptRef(ref) => Owed(q, ref) && !RefsFull(q) && q.inflight == map[] && q.handRefs == []
    case CutOffRef(ref) => Owed(q, ref)
  }

  ghost predicate Owed(q: Queue, ref: DiskRef) {
    && q.store.Some? && ref.id in q.led.stale && ref.id !in q.led.accepted
    && ref.id in Replay(q.store.value.segs).pending
    && ref == Replay(q.store.value.segs).pending[ref.id]
  }

  ghost function Apply(q: Queue, step: Step): Queue
    requires Enabled(q, step)
  {
    match step
    case Fresh(item) => Admit(q.(handItems := q.handItems + [item]), item)
    case Grab => PullItem(q)
    case Stow => Put(LessItem(q), HandItem(q))
    case StowFront => PutFront(LessItem(q), HandItem(q))
    case SpillHand => SpillItem(LessItem(q), HandItem(q)).0
    case ItemFate(fate, charge) => ItemGone(q, fate, charge)
    case GrabRef => RefToHand(q)
    case ReturnRef => QueueModel.ReturnRef(q)
    case RefFate(fate, charge) => RefGone(q, fate, charge)
    case ToFlightRef(now) => RegisterRef(q, now)
    case ToFlightItem(now) => RegisterItem(q, now)
    case FromFlight(id) => OutOfFlight(q, id)
    case ChargeRef => RefCharged(q)
    case ChargeItem => ItemCharged(q)
    case Reclaim => RemoveLowest(q).0
    case Quietly(d) => q.(store := Some(d))
    case SetClosed => q.(closed := true)
    case Crash(cfg, io) => Crashed(q, cfg, io)
    case AdoptRef(ref) => Adopt(q, ref)
    case CutOffRef(ref) => CutOff(q, ref)
  }

  // ---- The log under appends and removals ----

  lemma QuietLog(a: Segments, b: Segments, lowest: nat, loc: map<Id, Loc>, stale: set<Id>, durable: set<Id>)
    requires LogExact(a, lowest, loc, stale, durable) && Quiet(a, b)
    ensures LogExact(b, lowest, loc, stale, durable)
  {
    if b != a {
      ReplayRotate(a);
      AllReadableRotate(a);
      AcksFollowRotate(a);
    }
  }

  /** An append either leaves the records alone or adds one at the end, after at most one rotation. */
  lemma AppendShape(d: Disk, r: Record) returns (base: Segments)
    ensures var (d', res) := Append(d, r);
            && Live(base) && Quiet(d.segs, base)
            && (!res.Written? ==> Quiet(d.segs, d'.segs))
            && (res.Written? ==>
                  && d'.segs == base[Active(base) := Some(ActiveRecords(base) + [r])]
                  && res == Written(Active(base), SegmentSize(ActiveRecords(base))))
  {
    hide SegmentSize;
    var (d', res) := Append(d, r);
    base := if SegmentSize(ActiveRecords(d.segs)) + RecordSize(r) > SEGMENT_MAX then d.segs + [Some([])] else d.segs;
  }

  lemma AppendItemLog(d: Disk, item: Item, lowest: nat, loc: map<Id, Loc>, stale: set<Id>, durable: set<Id>)
    requires LogExact(d.segs, lowest, loc, stale, durable)
    requires AppendItem(d, item).1.Written? && Fits(item)
    requires item.id !in durable && item.id !in stale
    ensures var (d', res) := AppendItem(d, item);
            LogExact(d'.segs, lowest, loc[item.id := Loc(res.segment, res.offset)], stale, durable)
  {
    hide AllReadable, AcksFollowItems, Replay, SegmentSize, Append;
    var r := ItemRec(item);
    var base := AppendShape(d, r);
    QuietLog(d.segs, base, lowest, loc, stale, durable);
    ReplayAppend(base, r);
    AllReadableAppend(base, r);
    AcksFollowAppend(base, r);
  }

  lemma AppendAckLog(d: Disk, id: Id, lowest: nat, loc: map<Id, Loc>, stale: set<Id>, durable: set<Id>)
    requires LogExact(d.segs, lowest, loc, stale, durable)
    requires AppendAck(d, id).1.Written? && |id| <= MAX_ID
    ensures LogExact(AppendAck(d, id).0.segs, lowest, loc - {id}, stale - {id}, durable + {id})
  {
    hide AllReadable, AcksFollowItems, Replay, SegmentSize, Append;
    var r := AckRec(id);
    var base := AppendShape(d, r);
    QuietLog(d.segs, base, lowest, loc, stale, durable);
    ReplayAppend(base, r);
    AllReadableAppend(base, r);
    AcksFollowAppend(base, r);
  }

  /** Deleting the lowest segment, when no live item is recorded in it, loses only stale records. */
  lemma RemoveLog(d: Disk, lowest: nat, loc: map<Id, Loc>, stale: set<Id>, durable: set<Id>)
    requires LogExact(d.segs, lowest, loc, stale, durable) && loc.Keys !! stale
    requires lowest < Active(d.segs) && Remove(d, lowest).1 && On(loc, lowest) == {}
    ensures var segs := Remove(d, lowest).0.segs;
            && LogExact(segs, lowest + 1, loc, stale * Replay(segs).pending.Keys, durable)
            && Replay(segs).pending == Outside(Replay(d.segs).pending, lowest)
  {
    hide AllReadable, AcksFollowItems, Replay, SelfContained;
    var segs := d.segs;
    var gone := segs[lowest := None];
    PrefixIsSelfContained(segs, lowest);
    RemoveIsInvisible(segs, lowest);
    AllReadableRemove(segs, lowest);
    AcksFollowRemove(segs, lowest);
    assert Remove(d, lowest).0.segs == gone;
    var before, after := Replay(segs).pending, Replay(gone).pending;
    forall id | id in loc ensures id in after && after[id] == before[id] {
      assert id in before && id !in On(loc, lowest);
    }
  }

  // ---- Claims ----

  lemma ClaimsAdd(claims: map<nat, int>, loc: map<Id, Loc>, id: Id, at: Loc)
    requires ClaimsExact(claims, loc) && id !in loc
    ensures ClaimsExact(claims[at.segment := ClaimAt(claims, at.segment) + 1], loc[id := at])
  {
    hide On;
    var claims', loc' := claims[at.segment := ClaimAt(claims, at.segment) + 1], loc[id := at];
    forall s: nat ensures ClaimAt(claims', s) == |On(loc', s)| {
      assert ClaimAt(claims, s) == |On(loc, s)|;
      OnAdd(loc, id, at, s);
    }
  }

  lemma OnAdd(loc: map<Id, Loc>, id: Id, at: Loc, s: nat)
    requires id !in loc
    ensures id !in On(loc, s) && On(loc[id := at], s) == On(loc, s) + (if s == at.segment then {id} else {})
  {
  }

  lemma ClaimsRelease(claims: map<nat, int>, loc: map<Id, Loc>, id: Id)
    requires ClaimsExact(claims, loc) && id in loc
    ensures ClaimAt(claims, loc[id].segment) > 0
    ensures var s := loc[id].segment; var c := ClaimAt(claims, s);
            ClaimsExact(if c == 1 then claims - {s} else claims[s := c - 1], loc - {id})
  {
    var at := loc[id].segment;
    var c := ClaimAt(claims, at);
    assert id in On(loc, at);
    var claims' := if c == 1 then claims - {at} else claims[at := c - 1];
    var loc' := loc - {id};
    forall s: nat ensures ClaimAt(claims', s) == |On(loc', s)| {
      assert ClaimAt(claims, s) == |On(loc, s)|;
      if s == at {
        assert On(loc', s) == On(loc, s) - {id};
      } else {
        assert On(loc', s) == On(loc, s);
      }
    }
    assert c == |On(loc, at)|;
  }

  lemma ClaimsSpent(claims: map<nat, int>, loc: map<Id, Loc>, s: nat)
    requires ClaimsExact(claims, loc) && ClaimAt(claims, s) == 0
    ensures On(loc, s) == {} && claims - {s} == claims
  {
    assert ClaimAt(claims, s) == |On(loc, s)|;
  }
}
