/** Crashes: what a run of steps may take out of recovery, what a start does with what it finds, and
    both wherever a crash cuts an operation or a start. */
module QueueCrashes {
  import opened Bytes
  import opened WalCodec
  import opened Wal
  import opened SpillDisk
  import opened WalLog
  import opened QueueModel
  import opened QueueInvariant
  import opened QueueSteps
  import opened QueueStepProofs
  import opened QueueRuns
  import opened QueueTheorems
  import opened QueueLaws

  // ---- Nothing vanishes ----

  ghost function Pending(q: Queue): map<Id, DiskRef>
    requires q.store.Some?
  {
    Replay(q.store.value.segs).pending
  }

  /** The ledger only grows, and an ack is written only for an item with a fate. */
  ghost predicate Grows(a: Ledger, b: Ledger) {
    && a.acked <= b.acked && a.dropped <= b.dropped && a.unrecorded <= b.unrecorded && a.accepted <= b.accepted
    && a.durable <= b.durable <= a.durable + b.acked + b.dropped + b.unrecorded
  }

  /** What a replay returned it still returns, at the same place, but for what was durably acked or
      lay in a segment deleted since; and whatever it newly returns was accepted meanwhile. */
  ghost predicate Lasts(q: Queue, q': Queue) {
    && q.store.Some? && q'.store.Some? && q.lowest <= q'.lowest && Grows(q.led, q'.led)
    && var before, after := Pending(q), Pending(q');
    && (forall id | id in before ::
          || (id in after && after[id] == before[id])
          || id in q'.led.durable || before[id].segment < q'.lowest)
    && forall id | id in after && id !in before :: id in q'.led.accepted
  }

  lemma LastsTwice(a: Queue, b: Queue, c: Queue)
    requires Lasts(a, b) && Lasts(b, c)
    ensures Lasts(a, c)
  {
    hide Replay;
  }

  lemma LastsSame(q: Queue, q': Queue)
    requires q.store.Some? && q'.store.Some? && Pending(q') == Pending(q) && q'.lowest == q.lowest
    requires Grows(q.led, q'.led)
    ensures Lasts(q, q')
  {
    hide Replay;
  }

  lemma QuietPending(a: Segments, b: Segments)
    requires Quiet(a, b)
    ensures Replay(b) == Replay(a)
  {
    hide Replay;
    ReplayRotate(a);
  }

  /** Appending an ack takes exactly its own id out of what a replay returns, if it is written. */
  lemma AckPending(d: Disk, id: Id)
    ensures var (d', res) := AppendAck(d, id); var before := Replay(d.segs).pending;
            Replay(d'.segs).pending == if res.Written? then before - {id} else before
  {
    hide Append, Replay;
    var (d', res) := AppendAck(d, id);
    var base := AppendShape(d, AckRec(id));
    QuietPending(d.segs, base);
    if res.Written? {
      ReplayAppend(base, AckRec(id));
    } else {
      QuietPending(d.segs, d'.segs);
    }
  }

  lemma AckLasts(q: Queue, q': Queue, id: Id)
    requires q.store.Some? && q'.store == Some(AppendAck(q.store.value, id).0) && q'.lowest == q.lowest
    requires AppendAck(q.store.value, id).1.Written? ==> id in q'.led.durable
    requires Grows(q.led, q'.led)
    ensures Lasts(q, q')
  {
    hide AppendAck, Replay;
    AckPending(q.store.value, id);
  }

  lemma RefFateLasts(q: Queue, fate: Fate, charge: nat)
    requires q.handRefs != [] && q.store.Some? && !fate.FateLost?
    requires Inv(q)
    ensures Lasts(q, RefGone(q, fate, charge))
  {
    hide Inv, AppendAck, RefGone, Lasts;
    HandRefClaimed(q);
    RefGoneShape(q, fate, charge);
    AckLasts(q, RefGone(q, fate, charge), HandRef(q).id);
  }

  lemma CutOffLasts(q: Queue, ref: DiskRef)
    requires q.store.Some?
    ensures Lasts(q, CutOff(q, ref))
  {
    hide AppendAck, CutOff, Lasts;
    CutOffShape(q, ref);
    AckLasts(q, CutOff(q, ref), ref.id);
  }

  lemma ReclaimLasts(q: Queue)
    requires Inv(q) && Spent(q) && RemoveLowest(q).1
    ensures Lasts(q, RemoveLowest(q).0)
  {
    hide Inv, Replay, Remove;
    RemoveReplay(q);
    RemoveShape(q);
  }

  lemma HandItemNew(q: Queue)
    requires Inv(q) && q.handItems != [] && q.store.Some?
    ensures HandItem(q).id !in Pending(q) && HandItem(q).id in q.led.accepted
  {
    hide Conserved, Holding, ClaimsExact, Placed, Unsettled, TriedAll, Counted, Bounded, LogExact, Replay;
    HandItemUnplaced(q);
    HandUnsettled(q);
    PendingKeys(q);
    HandItemHeld(q);
    HeldAccepted(q, HandItem(q).id);
  }

  lemma SpillLasts(q: Queue)
    requires q.handItems != [] && q.store.Some? && SpillItem(LessItem(q), HandItem(q)).1.Written?
    requires Inv(q)
    ensures Lasts(q, SpillItem(LessItem(q), HandItem(q)).0)
  {
    hide Inv, AppendItem, Replay;
    var q' := SpillItem(LessItem(q), HandItem(q)).0;
    HandItemNew(q);
    assert q'.store == Some(AppendItem(q.store.value, HandItem(q)).0) && q'.lowest == q.lowest;
    ItemLasts(q, q', HandItem(q));
  }

  lemma ItemLasts(q: Queue, q': Queue, item: Item)
    requires q.store.Some? && AppendItem(q.store.value, item).1.Written?
    requires q'.store == Some(AppendItem(q.store.value, item).0) && q'.lowest == q.lowest
    requires item.id !in Pending(q) && item.id in q'.led.accepted && Grows(q.led, q'.led)
    ensures Lasts(q, q')
  {
    hide AppendItem, Replay;
    ItemPending(q.store.value, item);
    var before, after := Pending(q), Pending(q');
    assert after == Replay(AppendItem(q.store.value, item).0.segs).pending;
    forall id | id in before ensures id in after && after[id] == before[id] {
      assert id != item.id;
    }
  }

  lemma ItemPending(d: Disk, item: Item)
    requires AppendItem(d, item).1.Written?
    ensures var before, after := Replay(d.segs).pending, Replay(AppendItem(d, item).0.segs).pending;
            && (forall id | id in before && id != item.id :: id in after && after[id] == before[id])
            && (forall id | id in after && id != item.id :: id in before)
  {
    hide Append, Replay;
    var base := AppendShape(d, ItemRec(item));
    QuietPending(d.segs, base);
    ReplayAppend(base, ItemRec(item));
  }

  lemma OtherLasts(q: Queue, step: Step)
    requires Enabled(q, step) && q.store.Some?
    requires !step.RefFate? && !step.CutOffRef? && !step.Reclaim? && !step.SpillHand? && !step.Crash?
    ensures Lasts(q, Apply(q, step))
  {
    hide Replay, Lasts;
    if step.Quietly? {
      QuietPending(q.store.value.segs, step.d.segs);
    } else {
      OtherQuiet(q, step);
    }
    LastsSame(q, Apply(q, step));
  }

  lemma OtherQuiet(q: Queue, step: Step)
    requires Enabled(q, step) && q.store.Some? && !step.Quietly?
    requires !step.RefFate? && !step.CutOffRef? && !step.Reclaim? && !step.SpillHand? && !step.Crash?
    ensures var q' := Apply(q, step); q'.store == q.store && q'.lowest == q.lowest && Grows(q.led, q'.led)
  {
    hide Replay, ItemGone, Reverse, Claim, Crashed, RefGone, CutOff, RemoveLowest, SpillItem;
    if step.ItemFate? {
      ItemGoneShape(q, step.fate, step.charge);
    } else {
      hide Grows;
      LedgerQuiet(q, step);
    }
  }

  lemma LedgerQuiet(q: Queue, step: Step)
    requires Enabled(q, step) && q.store.Some? && !step.Quietly? && !step.ItemFate?
    requires !step.RefFate? && !step.CutOffRef? && !step.Reclaim? && !step.SpillHand? && !step.Crash?
    ensures Grows(q.led, Apply(q, step).led)
  {
    hide Replay, Reverse, Claim, Enabled, Admit, Adopt, Apply, Grows;
    if step.Fresh? {
      AdmitGrows(q.(handItems := q.handItems + [step.item]), step.item);
      FreshIs(q, step.item);
    } else if step.AdoptRef? {
      AdoptGrows(q, step.ref);
      AdoptIs(q, step.ref);
    } else if Tallies(step) {
      TallyFates(q, step);
      SameFatesGrow(q.led, Apply(q, step).led);
    } else {
      MovesOnly(q, step);
      SameFatesGrow(q.led, q.led);
    }
  }

  lemma FreshIs(q: Queue, item: Item)
    requires Enabled(q, Fresh(item))
    ensures Apply(q, Fresh(item)) == Admit(q.(handItems := q.handItems + [item]), item)
  {
    hide Admit;
  }

  lemma AdoptIs(q: Queue, ref: DiskRef)
    requires Enabled(q, AdoptRef(ref))
    ensures Apply(q, AdoptRef(ref)) == Adopt(q, ref)
  {
    hide Adopt, Replay;
  }

  /** The steps that note a charge or a new peak. */
  predicate Tallies(step: Step) {
    step.ToFlightRef? || step.ToFlightItem? || step.ChargeRef? || step.ChargeItem?
  }

  lemma PeakFates(q: Queue)
    ensures SameFates(q.led, NotePeak(q).led)
  {
  }

  lemma ChargedFates(q: Queue, id: Id, charge: nat)
    ensures SameFates(q.led, Charged(q, id, charge).led)
  {
  }

  lemma TallyFates(q: Queue, step: Step)
    requires Tallies(step) && Enabled(q, step)
    ensures SameFates(q.led, Apply(q, step).led)
  {
    hide Replay, Crashed, RefGone, ItemGone, CutOff, Adopt, RemoveLowest, SpillItem, Put, PutFront, Admit, OutOfFlight,
         NotePeak, Charged, SameFates;
    match step {
      case ToFlightRef(now) =>
        var r := q.handRefs[0];
        PeakFates(q.(handRefs := q.handRefs[1..], inflight := q.inflight[r.id := RefEntry(r, now)]));
      case ToFlightItem(now) =>
        var x := q.handItems[0];
        PeakFates(q.(handItems := q.handItems[1..], inflight := q.inflight[x.id := MemEntry(x, now)]));
      case ChargeRef =>
        var r := HandRef(q);
        ChargedFates(q.(handRefs := LessRef(q).handRefs + [r.(attempts := r.attempts + 1)]), r.id, 1);
      case ChargeItem =>
        var x := HandItem(q);
        ChargedFates(q.(handItems := LessItem(q).handItems + [x.(attempts := x.attempts + 1)]), x.id, 1);
    }
  }

  lemma MovesOnly(q: Queue, step: Step)
    requires Enabled(q, step) && !Tallies(step) && !step.Fresh? && !step.AdoptRef? && !step.Quietly? && !step.ItemFate?
    requires !step.RefFate? && !step.CutOffRef? && !step.Reclaim? && !step.SpillHand? && !step.Crash?
    ensures Apply(q, step).led == q.led
  {
    hide Replay, Reverse, Crashed, RefGone, ItemGone, CutOff, Adopt, RemoveLowest, SpillItem, Admit;
  }

  lemma AdmitGrows(q: Queue, item: Item)
    ensures Grows(q.led, Admit(q, item).led)
  {
  }

  lemma AdoptGrows(q: Queue, ref: DiskRef)
    ensures Grows(q.led, Adopt(q, ref).led)
  {
    hide Claim;
  }

  ghost predicate SameFates(a: Ledger, b: Ledger) {
    && a.acked == b.acked && a.dropped == b.dropped && a.unrecorded == b.unrecorded && a.durable == b.durable
    && a.accepted == b.accepted
  }

  lemma SameFatesGrow(a: Ledger, b: Ledger)
    requires SameFates(a, b)
    ensures Grows(a, b)
  {
  }

  /** Every step of a life lets recovery forget nothing but what is settled or deleted. */
  lemma StepLasts(q: Queue, step: Step)
    requires Enabled(q, step) && q.store.Some? && !step.Crash?
    requires Inv(q)
    ensures Lasts(q, Apply(q, step))
  {
    hide Inv, Lasts, RefGone, CutOff, RemoveLowest, SpillItem;
    match step
    case RefFate(fate, charge) => RefFateLasts(q, fate, charge);
    case CutOffRef(ref) => CutOffLasts(q, ref);
    case Reclaim => ReclaimLasts(q);
    case SpillHand => SpillLasts(q);
    case _ => OtherLasts(q, step);
  }

  /** And so does every run within one life. */
  lemma {:induction false} RunLasts(q: Queue, steps: seq<Step>, q2: Queue)
    requires q.store.Some? && Runs(q, steps, q2) && SameLife(steps)
    requires Inv(q)
    ensures Lasts(q, q2)
    decreases |steps|
  {
    hide Inv, Enabled, Apply, Lasts;
    if steps == [] {
      LastsSame(q, q);
    } else {
      var q1 := Apply(q, steps[0]);
      StepLasts(q, steps[0]);
      StepKeeps(q, steps[0]);
      StoreLasts(q, q1);
      assert SameLife(steps[1..]);
      RunLasts(q1, steps[1..], q2);
      LastsTwice(q, q1, q2);
    }
  }

  lemma StoreLasts(q: Queue, q': Queue)
    requires Lasts(q, q')
    ensures q'.store.Some?
  {
  }

  // ---- What a start does with what it finds ----

  ghost function Names(refs: seq<DiskRef>): set<Id> {
    set r | r in refs :: r.id
  }

  lemma NamesFirst(refs: seq<DiskRef>)
    requires refs != []
    ensures Names(refs) == {refs[0].id} + Names(refs[1..])
  {
    assert refs == [refs[0]] + refs[1..];
  }

  lemma {:induction false} AdoptAllTakes(q: Queue, refs: seq<DiskRef>)
    ensures var q' := AdoptAll(q, refs);
            && q'.refs == q.refs + refs && q'.lowest == q.lowest && q'.droppedTotal == q.droppedTotal
            && q'.led.acked == q.led.acked && q'.led.dropped == q.led.dropped && q'.led.unrecorded == q.led.unrecorded
            && q'.led.accepted == q.led.accepted + Names(refs) && q'.store == q.store && q'.cfg == q.cfg
    decreases |refs|
  {
    hide Names;
    if refs == [] {
      assert Names([]) == {} by { NoNames(); }
    } else {
      NamesFirst(refs);
      AdoptAllTakes(Adopt(q, refs[0]), refs[1..]);
      assert q.refs + [refs[0]] + refs[1..] == q.refs + refs;
    }
  }

  lemma NoNames()
    ensures Names([]) == {}
  {
  }

  lemma {:induction false} CutOffAllCounts(q: Queue, refs: seq<DiskRef>)
    requires q.store.Some?
    ensures var q' := CutOffAll(q, refs);
            && q'.refs == q.refs && q'.lowest == q.lowest && q'.droppedTotal == q.droppedTotal + |refs|
            && q'.led.acked == q.led.acked && q'.led.dropped == q.led.dropped + Names(refs)
            && q'.led.unrecorded == q.led.unrecorded
            && q'.led.accepted == q.led.accepted + Names(refs) && q'.cfg == q.cfg
    decreases |refs|
  {
    hide Names, CutOff;
    if refs == [] {
      assert Names([]) == {} by { NoNames(); }
    } else {
      NamesFirst(refs);
      CutOffShape(q, refs[0]);
      CutOffAllCounts(CutOff(q, refs[0]), refs[1..]);
    }
  }

  /** How many of the found references a start keeps. */
  function Keeps(cfg: Config, found: seq<DiskRef>): (keep: nat)
    ensures keep <= |found|
  {
    var cap := Slots(DiskBudget(cfg));
    if |found| > cap then cap else |found|
  }

  /** A completed start queues the references it found, each at its place, in the order found and up
      to the cap; the rest it drops and counts. */
  lemma StartTakesUp(cfg: Config, segs: Segments, io: nat -> IO, found: seq<DiskRef>, led: Ledger)
    ensures var s, keep := Start(cfg, segs, io, found, led), Keeps(cfg, found);
            && s.refs == found[..keep] && s.led.dropped == Names(found[keep..]) && s.droppedTotal == |found| - keep
            && s.led.accepted == Names(found) && s.led.acked == {} && s.led.unrecorded == {}
            && s.lowest == Boot(cfg, segs, io, led).lowest && s.cfg == cfg
  {
    hide AdoptAll, CutOffAll, Names, Replay, LowestFile, DiskBytes, SegmentSize;
    var q0, keep := Boot(cfg, segs, io, led), Keeps(cfg, found);
    AdoptAllTakes(q0, found[..keep]);
    CutOffAllCounts(AdoptAll(q0, found[..keep]), found[keep..]);
    NamesSplit(found, keep);
    assert [] + found[..keep] == found[..keep];
  }

  lemma NamesSplit(refs: seq<DiskRef>, k: nat)
    requires k <= |refs|
    ensures Names(refs) == Names(refs[..k]) + Names(refs[k..])
  {
    assert refs == refs[..k] + refs[k..];
  }

  // ---- A crash inside a start ----

  /** What recovery returns where a crash cut a start: what it returned before the start, each at the
      same place, less exactly those the start has acked, which it dropped as past the cap. */
  ghost predicate StartExact(q: Queue, cfg: Config, found: seq<DiskRef>, mid: Queue) {
    && q.store.Some? && mid.store.Some?
    && var before, after := Recover(q.store.value.segs).pending, Recover(mid.store.value.segs).pending;
    && (forall id | id in after :: id in before && after[id] == before[id])
    && (forall id | id in before :: id in after <==> id !in mid.led.durable)
    && (forall id | id in before && id !in after :: id in mid.led.dropped && id in Names(found[Keeps(cfg, found)..]))
  }

  /** Booting replays what the files held before it. */
  lemma BootPending(q: Queue, cfg: Config, io: nat -> IO)
    requires q.store.Some?
    ensures Pending(Boot(cfg, q.store.value.segs, io, q.led)) == Pending(q)
  {
    hide Replay, LowestFile, DiskBytes, SegmentSize;
    ReplayRotate(q.store.value.segs);
  }

  lemma PendingUndurable(q: Queue)
    requires Inv(q) && q.store.Some?
    ensures forall id | id in Pending(q) :: id !in q.led.durable
  {
    hide Conserved, Holding, ClaimsExact, Placed, TriedAll, Counted, Bounded, LogExact, Replay;
    PendingKeys(q);
    LiveNotStale(q);
  }

  lemma CutStart(q: Queue, op: Op, steps: seq<Step>, n: nat, mid: Queue)
    requires op.DoRestart? && CutAt(q, op, steps, n, mid)
    requires Inv(q)
    ensures Inv(mid) && StartExact(q, op.cfg, op.found, mid)
  {
    hide Inv, Runs, Recover, Replay, Start, Boot, SameLife, Names, StartExact, Lasts;
    var boot, end := Origin(q, op), Do(q, op);
    StartGood(q, op.cfg, op.io, op.found);
    BootFacts(op.cfg, q.store.value.segs, op.io, q.led);
    LifeParts(steps, n);
    RunLasts(boot, steps[..n], mid);
    RunInv(boot, steps[..n], mid);
    StoreLasts(boot, mid);
    RunLasts(mid, steps[n..], end);
    StartTakesUp(op.cfg, q.store.value.segs, op.io, op.found, q.led);
    BootPending(q, op.cfg, op.io);
    Recovered(q);
    Recovered(mid);
    PendingUndurable(boot);
    PendingUndurable(mid);
    forall id | id in Pending(boot) ensures Pending(boot)[id].segment >= boot.lowest {
      PendingAbove(boot, id);
    }
    FoundNames(q, op);
    CutBetween(q, op, boot, mid, end);
  }

  /** Everything found was there to be found. */
  lemma FoundNames(q: Queue, op: Op)
    requires op.DoRestart? && Allowed(q, op) && Inv(q)
    ensures Names(op.found) == Pending(q).Keys
  {
    hide Inv, Replay, Recover, Allowed;
    FoundAll(q, op);
    var pending := Pending(q);
    forall id | id in pending ensures id in Names(op.found) {
      ReplayLocates(q.store.value.segs, id);
      assert pending[id] in op.found;
    }
  }

  lemma FoundAll(q: Queue, op: Op)
    requires op.DoRestart? && Allowed(q, op) && Inv(q)
    ensures q.store.Some? && op.cfg.maxMemory > 0 && Enumerates(op.found, Pending(q))
  {
    hide Inv, Replay, Recover, LowestFile, DiskBytes, SegmentSize;
    CrashKeeps(q, op.cfg, op.io);
    Recovered(Boot(op.cfg, q.store.value.segs, op.io, q.led));
    BootPending(q, op.cfg, op.io);
  }

  lemma LifeParts(steps: seq<Step>, n: nat)
    requires SameLife(steps) && n <= |steps|
    ensures SameLife(steps[..n]) && SameLife(steps[n..])
  {
  }

  lemma BootFacts(cfg: Config, segs: Segments, io: nat -> IO, led: Ledger)
    ensures var b := Boot(cfg, segs, io, led);
            && b.store.Some? && b.led.durable == led.durable
            && b.led.acked == {} && b.led.dropped == {} && b.led.unrecorded == {} && b.led.accepted == {}
  {
    hide Replay, LowestFile, DiskBytes, SegmentSize;
  }

  lemma Recovered(q: Queue)
    requires Inv(q) && q.store.Some?
    ensures Recover(q.store.value.segs).pending == Pending(q)
  {
    hide Inv, Recover, Replay;
    InvReadable(q);
    RecoverIsReplay(q.store.value.segs);
  }

  /** A state between the boot and the end of a start. */
  lemma CutBetween(q: Queue, op: Op, boot: Queue, mid: Queue, end: Queue)
    requires op.DoRestart? && q.store.Some? && Lasts(boot, mid) && Lasts(mid, end)
    requires Recover(q.store.value.segs).pending == Pending(boot)
    requires Recover(mid.store.value.segs).pending == Pending(mid)
    requires boot.led.acked == {} == boot.led.dropped && boot.led.unrecorded == {} && end.lowest == boot.lowest
    requires end.led.acked == {} == end.led.unrecorded && end.led.accepted == Pending(boot).Keys
    requires end.led.dropped == Names(op.found[Keeps(op.cfg, op.found)..])
    requires forall id | id in Pending(boot) :: id !in boot.led.durable && Pending(boot)[id].segment >= boot.lowest
    requires forall id | id in Pending(mid) :: id !in mid.led.durable
    ensures StartExact(q, op.cfg, op.found, mid)
  {
    hide Recover, Replay, Names;
  }

  // ---- Crashes after any history ----

  lemma FirstStore(cfg: Config, io: nat -> IO)
    ensures FirstStart(cfg, true, io).store.Some?
  {
  }

  /** Every history over a spill directory keeps it, and the invariant. */
  lemma HistoryKeeps(cfg: Config, io: nat -> IO, events: seq<Event>, l: Life)
    requires cfg.maxMemory > 0 && History(Up(FirstStart(cfg, true, io)), events, l)
    ensures GoodLife(l) && l.q.store.Some?
  {
    hide Good, FirstStart, History;
    var first := FirstStart(cfg, true, io);
    FirstStartGood(cfg, true, io);
    FirstStore(cfg, io);
    HistoryGood(Up(first), events, l);
    HistoryStore(Up(first), events, l);
  }

  /** A run of an operation's own steps can be cut after any of them. */
  lemma CutOperation(l: Life, op: Op, steps: seq<Step>, n: nat) returns (mid: Queue)
    requires GoodLife(l) && MayDo(l, op) && SameLife(steps) && n <= |steps|
    requires Runs(Origin(l.q, op), steps, Do(l.q, op))
    ensures CutAt(l.q, op, steps, n, mid) && Inv(mid)
  {
    hide Inv, GoodLife, Good, Runs, Do, Allowed, Origin, Path, SameLife;
    LifeDoes(l, op);
    assert steps[..n] + steps[n..] == steps;
    mid := CutRun(Origin(l.q, op), steps[..n], steps[n..], Do(l.q, op));
  }

  /** The steps of anything but a restart happen within one life of the process. */
  lemma CutPath(q: Queue, op: Op, steps: seq<Step>, n: nat, mid: Queue)
    requires !op.DoRestart? && CutAt(q, op, steps, n, mid)
    ensures Path(q, mid)
  {
    hide Runs, Do, Allowed;
    assert SameLife(steps[..n]);
  }

  /** Recovery where a crash cut an operation is exact; where it cut a start it returns what it did
      before, less what the start acked. */
  lemma CutExact(l: Life, op: Op, steps: seq<Step>, n: nat, mid: Queue)
    requires GoodLife(l) && MayDo(l, op) && l.q.store.Some? && CutAt(l.q, op, steps, n, mid)
    ensures Inv(mid) && mid.store.Some?
    ensures if op.DoRestart? then StartExact(l.q, op.cfg, op.found, mid) else RecoveryExact(mid)
  {
    hide Inv, RecoveryExact, Runs, Booted, Do, Allowed, CutAt, Path, StartExact;
    if op.DoRestart? {
      assert Inv(l.q) by { LifeInv(l); }
      CutStart(l.q, op, steps, n, mid);
      StartStore(l.q, op.cfg, op.found, mid);
    } else {
      CutPath(l.q, op, steps, n, mid);
      PathInv(l.q, mid);
      PathStore(l.q, mid);
      RecoveryLaw(mid);
    }
  }

  /** After any history of operations, starts and crashes inside either, wherever a crash cuts the next
      one's own run the invariant holds, so that a start from there is good again, and recovery there
      is exact in that sense. */
  lemma CrashAnywhere(cfg: Config, io: nat -> IO, events: seq<Event>, l: Life, op: Op, steps: seq<Step>, n: nat)
    returns (mid: Queue)
    requires cfg.maxMemory > 0 && History(Up(FirstStart(cfg, true, io)), events, l)
    requires MayDo(l, op) && SameLife(steps) && n <= |steps| && Runs(Origin(l.q, op), steps, Do(l.q, op))
    ensures CutAt(l.q, op, steps, n, mid) && Inv(mid) && mid.store.Some?
    ensures if op.DoRestart? then StartExact(l.q, op.cfg, op.found, mid) else RecoveryExact(mid)
  {
    hide Inv, GoodLife, RecoveryExact, FirstStart, Runs, History, Do, Allowed, CutAt, SameLife, StartExact;
    HistoryKeeps(cfg, io, events, l);
    mid := CutOperation(l, op, steps, n);
    CutExact(l, op, steps, n, mid);
  }

  lemma StartStore(q: Queue, cfg: Config, found: seq<DiskRef>, mid: Queue)
    requires StartExact(q, cfg, found, mid)
    ensures mid.store.Some?
  {
  }

  // ---- Survival ----

  /** Queued again at the same place, or dropped and counted because the reference cap is full. */
  ghost predicate TakenUp(s: Queue, r: DiskRef) {
    || (exists x :: x in s.refs && x.id == r.id && x.segment == r.segment && x.offset == r.offset)
    || (r.id in s.led.dropped && |s.refs| == Slots(DiskBudget(s.cfg)))
  }

  /** A start takes up everything recovery returns. */
  lemma StartTakes(q: Queue, again: Op, r: DiskRef)
    requires again.DoRestart? && Allowed(q, again) && Inv(q) && Returned(Recover(q.store.value.segs).pending, r)
    ensures TakenUp(Do(q, again), r)
  {
    hide Inv, Recover, Replay, Start, Boot, Names;
    Recovered(q);
    FoundAll(q, again);
    var x := Pending(q)[r.id];
    ReplayLocates(q.store.value.segs, r.id);
    StartTakesUp(again.cfg, q.store.value.segs, again.io, again.found, q.led);
    TakenPlace(Do(q, again), again.cfg, again.found, x, r);
  }

  lemma TakenPlace(s: Queue, cfg: Config, found: seq<DiskRef>, x: DiskRef, r: DiskRef)
    requires x in found && x.id == r.id && x.segment == r.segment && x.offset == r.offset && s.cfg == cfg
    requires var keep := Keeps(cfg, found); s.refs == found[..keep] && s.led.dropped == Names(found[keep..])
    ensures TakenUp(s, r)
  {
    var keep := Keeps(cfg, found);
    assert found == found[..keep] + found[keep..];
    if x !in found[..keep] {
      assert x in found[keep..];
    }
  }

  lemma LiveReturned(q: Queue, r: DiskRef)
    requires q.store.Some? && LiveRef(q, r)
    requires Inv(q)
    ensures Returned(Recover(q.store.value.segs).pending, r)
  {
    Recovered(q);
    hide Conserved, Holding, ClaimsExact, Unsettled, TriedAll, Counted, Bounded, Placed, Replay, Recover, AllReadable,
         AcksFollowItems, LiveRef;
    LiveAt(q, r);
  }

  /** Starts, of which only the last completes. */
  ghost predicate Restarts(events: seq<Event>) {
    && events != [] && events[|events| - 1].Completes?
    && (forall e | e in events :: e.op.DoRestart?)
    && forall i | 0 <= i < |events| - 1 :: events[i].Cut?
  }

  /** One of the crashed starts had dropped it past the cap, and its ack was written. */
  ghost predicate CutOffBy(events: seq<Event>, id: Id) {
    exists e | e in events :: e.Cut? && id in e.mid.led.dropped && id in e.mid.led.durable
  }

  /** However many starts crash one after another, the one that completes takes up everything recovery
      returned before the first, but for what a crashed one had dropped past the cap for good. */
  lemma {:induction false} RestartsTakeUp(l: Life, events: seq<Event>, l2: Life, r: DiskRef)
    requires GoodLife(l) && l.q.store.Some? && Restarts(events) && History(l, events, l2)
    requires Returned(Recover(l.q.store.value.segs).pending, r)
    ensures TakenUp(l2.q, r) || CutOffBy(events, r.id)
    decreases |events|
  {
    hide GoodLife, Allowed, CutAt, Recover, StartExact, Do, Inv, TakenUp;
    var e := events[0];
    var l1 := After(l, e);
    assert e in events;
    if e.Completes? {
      assert |events| == 1;
      assert events[1..] == [];
      assert Inv(l.q) by { LifeInv(l); }
      StartTakes(l.q, e.op, r);
    } else {
      EventGood(l, e);
      CutExact(l, e.op, e.steps, e.n, e.mid);
      StartReturns(l.q, e.op.cfg, e.op.found, e.mid, r);
      if Returned(Recover(e.mid.store.value.segs).pending, r) {
        FewerRestarts(events);
        RestartsTakeUp(l1, events[1..], l2, r);
      }
    }
  }

  lemma FewerRestarts(events: seq<Event>)
    requires Restarts(events) && events[0].Cut?
    ensures Restarts(events[1..])
  {
  }

  lemma StartReturns(q: Queue, cfg: Config, found: seq<DiskRef>, mid: Queue, r: DiskRef)
    requires q.store.Some? && StartExact(q, cfg, found, mid) && Returned(Recover(q.store.value.segs).pending, r)
    ensures Returned(Recover(mid.store.value.segs).pending, r) || (r.id in mid.led.dropped && r.id in mid.led.durable)
  {
    hide Recover;
  }

  /** No crash loses an item on disk. After any history, at a running queue or where a crash cut an
      operation or a start: whatever is live there, the next start that completes takes up, but for what a
      start that crashed before it had dropped past the cap for good. */
  lemma Survival(cfg: Config, io: nat -> IO, events: seq<Event>, l: Life, restarts: seq<Event>, l2: Life, r: DiskRef)
    requires cfg.maxMemory > 0 && History(Up(FirstStart(cfg, true, io)), events, l)
    requires Restarts(restarts) && History(l, restarts, l2) && LiveRef(l.q, r)
    ensures TakenUp(l2.q, r) || CutOffBy(restarts, r.id)
  {
    hide Inv, GoodLife, FirstStart, History, Restarts, LiveRef, TakenUp, CutOffBy, Returned;
    HistoryKeeps(cfg, io, events, l);
    LifeInv(l);
    LiveReturned(l.q, r);
    RestartsTakeUp(l, restarts, l2, r);
  }
}
