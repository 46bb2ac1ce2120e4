/** What the invariant means for whole runs of the queue: restarts, recovery, conservation,
    compaction, claims and attempts. */
module QueueTheorems {
  import opened Bytes
  import opened WalCodec
  import opened Wal
  import opened SpillDisk
  import opened WalLog
  import opened QueueModel
  import opened QueueInvariant
  import opened QueueSteps
  import opened QueueStepProofs
  import opened QueueRuns

  // ---- Restart ----

  ghost predicate AllOwed(q: Queue, refs: seq<DiskRef>) {
    Distinct(refs) && forall r | r in refs :: Owed(q, r)
  }

  lemma AdoptLeavesOwed(q: Queue, refs: seq<DiskRef>)
    requires refs != [] && AllOwed(q, refs)
    ensures AllOwed(Adopt(q, refs[0]), refs[1..])
  {
    hide Replay;
    var q' := Adopt(q, refs[0]);
    forall r | r in refs[1..] ensures Owed(q', r) {
      var i :| 0 <= i < |refs| - 1 && refs[1..][i] == r;
      assert refs[i + 1] == r && r in refs;
    }
  }

  lemma CutOffLeavesOwed(q: Queue, refs: seq<DiskRef>)
    requires refs != [] && AllOwed(q, refs)
    ensures AllOwed(CutOff(q, refs[0]), refs[1..])
  {
    hide AppendAck, Replay, CutOff;
    var id := refs[0].id;
    var q' := CutOff(q, refs[0]);
    assert Owed(q, refs[0]);
    CutOffShape(q, refs[0]);
    AckReplay(q.store.value, id);
    forall r | r in refs[1..] ensures Owed(q', r) {
      var i :| 0 <= i < |refs| - 1 && refs[1..][i] == r;
      assert refs[i + 1] == r && r in refs;
      assert refs[0].id != refs[i + 1].id;
      assert Owed(q, r);
      assert q'.store == Some(AppendAck(q.store.value, id).0);
      assert r.id in Replay(q'.store.value.segs).pending;
      assert r == Replay(q'.store.value.segs).pending[r.id];
    }
  }

  /** Appending an ack takes at most its own id out of what a replay returns. */
  lemma AckReplay(d: Disk, id: Id)
    ensures var before, after := Replay(d.segs).pending, Replay(AppendAck(d, id).0.segs).pending;
            forall x | x in before && x != id :: x in after && after[x] == before[x]
  {
    hide Append, Replay;
    var base := AppendShape(d, AckRec(id));
    ReplayRotate(d.segs);
    ReplayAppend(base, AckRec(id));
  }

  lemma {:induction false} AdoptAllPath(q: Queue, refs: seq<DiskRef>)
    requires Inv(q) && AllOwed(q, refs) && q.inflight == map[] && q.handRefs == []
    requires |q.refs| + |refs| <= Slots(DiskBudget(q.cfg))
    ensures var q' := AdoptAll(q, refs);
            && Path(q, q') && q'.handRefs == [] && q'.handItems == q.handItems
            && q'.led.accepted >= q.led.accepted && (forall r | r in refs :: r.id in q'.led.accepted)
            && q'.led.stale <= q.led.stale && q'.store == q.store
            && (forall r | Owed(q, r) && (forall x | x in refs :: x.id != r.id) :: Owed(q', r))
    decreases |refs|
  {
    hide Path, Inv, Replay;
    if refs == [] {
      Stay(q);
    } else {
      var r := refs[0];
      var q1 := Adopt(q, r);
      assert Owed(q, r);
      Go(q, AdoptRef(r));
      PathInv(q, q1);
      AdoptLeavesOwed(q, refs);
      AdoptAllPath(q1, refs[1..]);
      Join(q, q1, AdoptAll(q1, refs[1..]));
      forall x | x in refs ensures x.id in AdoptAll(q, refs).led.accepted {
        assert x == r || x in refs[1..];
      }
    }
  }

  lemma {:induction false} CutOffAllPath(q: Queue, refs: seq<DiskRef>)
    requires Inv(q) && AllOwed(q, refs)
    ensures var q' := CutOffAll(q, refs);
            && Path(q, q') && q'.handRefs == q.handRefs && q'.handItems == q.handItems
            && q'.led.accepted >= q.led.accepted && (forall r | r in refs :: r.id in q'.led.accepted)
            && q'.led.stale <= q.led.stale
    decreases |refs|
  {
    hide Path, Inv, Replay;
    if refs == [] {
      Stay(q);
    } else {
      var r := refs[0];
      var q1 := CutOff(q, r);
      assert Owed(q, r);
      CutOffShape(q, r);
      Go(q, CutOffRef(r));
      PathInv(q, q1);
      CutOffLeavesOwed(q, refs);
      hide CutOff;
      CutOffAllPath(q1, refs[1..]);
      Join(q, q1, CutOffAll(q1, refs[1..]));
      forall x | x in refs ensures x.id in CutOffAll(q, refs).led.accepted {
        assert x == r || x in refs[1..];
      }
    }
  }

  /** A queue between operations: nothing in hand, nothing recovered left to take up. */
  ghost predicate Good(q: Queue) {
    Inv(q) && Booted(q) && q.handRefs == [] && q.handItems == []
  }

  /** Taking up what a boot found, within the reference cap and past it. */
  lemma TakeUp(q: Queue, found: seq<DiskRef>, keep: nat)
    requires Inv(q) && AllOwed(q, found) && q.inflight == map[] && q.refs == [] && q.handRefs == [] && q.handItems == []
    requires keep <= |found| && keep <= Slots(DiskBudget(q.cfg))
    requires forall id | id in q.led.stale :: exists r :: r in found && r.id == id
    ensures Good(CutOffAll(AdoptAll(q, found[..keep]), found[keep..]))
    ensures Path(q, CutOffAll(AdoptAll(q, found[..keep]), found[keep..]))
  {
    hide Path, Inv, Owed, AdoptAll, CutOffAll;
    var kept, cut := found[..keep], found[keep..];
    OwedParts(q, found, keep);
    hide AllOwed, Distinct;
    AdoptAllPath(q, kept);
    var q1 := AdoptAll(q, kept);
    PathInv(q, q1);
    StillOwed(q, q1, found, keep);
    CutOffAllPath(q1, cut);
    var q2 := CutOffAll(q1, cut);
    PathInv(q1, q2);
    Join(q, q1, q2);
    assert Booted(q2) by { AllTaken(q.led, q1.led, q2.led, found, keep); }
  }

  lemma AllTaken(a: Ledger, b: Ledger, c: Ledger, found: seq<DiskRef>, keep: nat)
    requires keep <= |found| && c.stale <= b.stale <= a.stale && b.accepted <= c.accepted
    requires forall id | id in a.stale :: exists r :: r in found && r.id == id
    requires forall r | r in found[..keep] :: r.id in b.accepted
    requires forall r | r in found[keep..] :: r.id in c.accepted
    ensures c.stale <= c.accepted
  {
    forall id | id in c.stale ensures id in c.accepted {
      var r :| r in found && r.id == id;
      assert found == found[..keep] + found[keep..];
    }
  }

  lemma OwedParts(q: Queue, found: seq<DiskRef>, keep: nat)
    requires AllOwed(q, found) && keep <= |found|
    ensures AllOwed(q, found[..keep]) && Distinct(found[keep..])
  {
    hide Owed;
  }

  lemma StillOwed(q: Queue, q1: Queue, found: seq<DiskRef>, keep: nat)
    requires AllOwed(q, found) && keep <= |found|
    requires forall r | Owed(q, r) && (forall x | x in found[..keep] :: x.id != r.id) :: Owed(q1, r)
    ensures AllOwed(q1, found[keep..])
  {
    hide Owed;
    forall r | r in found[keep..] ensures Owed(q1, r) {
      CutNotKept(found, keep, r);
      assert r in found;
    }
  }

  /** New over the files a crash left behind gives a good queue, whatever order recovery found the
      references in and however many of the settling writes fail. */
  lemma StartGood(q: Queue, cfg: Config, io: nat -> IO, found: seq<DiskRef>)
    requires Inv(q) && q.store.Some? && cfg.maxMemory > 0
    requires Enumerates(found, Recover(Reopened(q.store.value.segs, DiskBudget(cfg), io).segs).pending)
    ensures Inv(Boot(cfg, q.store.value.segs, io, q.led))
    ensures Good(Start(cfg, q.store.value.segs, io, found, q.led))
    ensures Path(Boot(cfg, q.store.value.segs, io, q.led), Start(cfg, q.store.value.segs, io, found, q.led))
  {
    hide Path, Inv, Recover, Replay, LowestFile, AdoptAll, CutOffAll, Good, DiskBytes, SegmentSize;
    var q0 := Boot(cfg, q.store.value.segs, io, q.led);
    var segs := q0.store.value.segs;
    CrashKeeps(q, cfg, io);
    InvReadable(q0);
    RecoverIsReplay(segs);
    forall r | r in found ensures Owed(q0, r) {
    }
    forall id | id in q0.led.stale ensures exists r :: r in found && r.id == id {
      var r := Replay(segs).pending[id];
      assert r in found;
      ReplayLocates(segs, id);
    }
    var cap := Slots(DiskBudget(cfg));
    TakeUp(q0, found, if |found| > cap then cap else |found|);
  }

  lemma CutNotKept(found: seq<DiskRef>, keep: nat, r: DiskRef)
    requires keep <= |found| && Distinct(found) && r in found[keep..]
    ensures forall x | x in found[..keep] :: x.id != r.id
  {
    var j :| 0 <= j < |found| - keep && found[keep..][j] == r;
    forall x | x in found[..keep] ensures x.id != r.id {
      var i :| 0 <= i < keep && found[..keep][i] == x;
      assert found[i].id != found[keep + j].id;
    }
  }

  lemma InvReadable(q: Queue)
    requires Inv(q) && q.store.Some?
    ensures AllReadable(q.store.value.segs)
  {
    hide Conserved, Holding, ClaimsExact, Placed, Unsettled, TriedAll, Counted, Bounded, AcksFollowItems, Replay,
        AllReadable;
  }

  // ---- Operations leave nothing in hand ----

  ghost predicate SameHands(a: Queue, b: Queue) {
    a.handRefs == b.handRefs && a.handItems == b.handItems
  }

  lemma EvictHands(q: Queue)
    ensures SameHands(Evict(q).0, q)
  {
    hide AppendItem;
  }

  lemma {:induction false} MakeRoomHands(q: Queue, need: int)
    ensures SameHands(MakeRoom(q, need).0, q)
    decreases |q.mem|
  {
    hide Evict;
    EvictHands(q);
    if !CanAccept(q, need) && q.mem != [] && Evict(q).1 {
      EvictShrinks(q);
      MakeRoomHands(Evict(q).0, need);
    }
  }

  lemma DropOldestHands(q: Queue)
    ensures SameHands(DropOldest(q), q)
  {
    hide Settle, Release;
    if q.mem == [] && q.refs != [] {
      var q1 := q.(refs := q.refs[1..], diskCount := q.diskCount - 1);
      ReleaseFrame(q1, q.refs[0]);
      SettleFrame(Release(q1, q.refs[0]), q.refs[0].id);
    }
  }

  lemma EnqueueHands(q: Queue, item: Item)
    ensures SameHands(Enqueue(q, item).0, q)
  {
    hide MakeRoom, DropOldest, AppendItem;
    MakeRoomHands(q, ItemSize(item));
    DropOldestHands(q);
  }

  ghost function InHand(q: Queue): nat {
    |q.handRefs| + |q.handItems|
  }

  lemma PullRefHands(q: Queue)
    requires q.refs != [] && q.store.Some?
    ensures var (q', pull) := PullRef(q);
            if pull.Got? then InHand(q') == InHand(q) + 1 else SameHands(q', q)
  {
    hide ReadItem, Settle, Release;
    var ref := q.refs[0];
    var q1 := q.(store := Some(ReadItem(q.store.value, ref.segment, ref.offset).0), refs := q.refs[1..],
                 diskCount := q.diskCount - 1);
    ReleaseFrame(q1, ref);
    SettleFrame(Release(q1, ref), ref.id);
  }

  lemma {:induction false} DequeueOneHands(q: Queue)
    ensures var (q', got) := DequeueOne(q);
            if got.Some? then InHand(q') == InHand(q) + 1 else SameHands(q', q)
    decreases |q.refs|
  {
    hide PullRef;
    if q.refs != [] && q.store.Some? {
      PullRefHands(q);
      PullShrinks(q);
      if PullRef(q).1.Skipped? {
        DequeueOneHands(PullRef(q).0);
      }
    }
  }

  lemma {:induction false} PullBatchHands(q: Queue, n: nat, checks: nat, batch: seq<Item>)
    ensures var (q', got) := PullBatch(q, n, checks, batch);
            && |got| >= |batch|
            && InHand(q') - InHand(q) == |got| - |batch|
            && |got| <= (if n > |batch| then n else |batch|)
    decreases checks
  {
    hide DequeueOne;
    DequeueOneHands(q);
    if |batch| < n && checks > 0 && DequeueOne(q).1.Some? {
      PullBatchHands(DequeueOne(q).0, n, checks - 1, batch + [DequeueOne(q).1.value]);
    }
  }

  lemma {:induction false} CompactFrame(q: Queue)
    ensures var q' := Compact(q);
            && q' == q.(store := q'.store, claims := q'.claims, lowest := q'.lowest, led := q'.led)
            && q'.led == q.led.(stale := q'.led.stale)
    decreases if q.store.Some? then Active(q.store.value.segs) - q.lowest else 0
  {
    hide RemoveLowest;
    if Spent(q) {
      RemoveShape(q);
      RemoveFrame(q);
      if RemoveLowest(q).1 {
        CompactFrame(RemoveLowest(q).0);
      }
    }
  }

  lemma RemoveFrame(q: Queue)
    requires q.store.Some?
    ensures var q' := RemoveLowest(q).0;
            && q' == q.(store := q'.store, claims := q'.claims, lowest := q'.lowest, led := q'.led)
            && q'.led == q.led.(stale := q'.led.stale)
  {
    hide Remove, Replay;
  }

  lemma {:induction false} RegisterHands(q: Queue, now: int)
    ensures InHand(Register(q, now)) == 0
    decreases |q.handRefs| + |q.handItems|
  {
    if q.handRefs != [] {
      RegisterHands(RegisterRef(q, now), now);
    } else if q.handItems != [] {
      RegisterHands(RegisterItem(q, now), now);
    }
  }

  lemma DequeueHands(q: Queue, n: int, checks: nat, now: int)
    requires InHand(q) == 0
    ensures InHand(Dequeue(q, n, checks, now).0) == 0
  {
    hide PullBatch, Compact, Register;
    if n > 0 && checks > 1 {
      PullBatchHands(q, n, checks - 1, []);
      var q1 := PullBatch(q, n, checks - 1, []).0;
      CompactFrame(q1);
      RegisterHands(Compact(q1), now);
    }
  }

  lemma AckOneHands(q: Queue, id: Id)
    ensures SameHands(AckOne(q, id).0, q)
  {
    hide AppendAck, Release;
    if id in q.inflight && q.inflight[id].RefEntry? {
      ReleaseFrame(q.(inflight := q.inflight - {id}), q.inflight[id].ref);
    }
  }

  lemma {:induction false} AckLoopHands(q: Queue, ids: seq<Id>)
    ensures SameHands(AckLoop(q, ids).0, q)
    decreases |ids|
  {
    hide AckOne;
    if ids != [] {
      AckOneHands(q, ids[0]);
      AckLoopHands(AckOne(q, ids[0]).0, ids[1..]);
    }
  }

  lemma AckHands(q: Queue, ids: seq<Id>)
    ensures SameHands(Ack(q, ids).0, q)
  {
    hide AckLoop, Compact;
    AckLoopHands(q, ids);
    CompactFrame(AckLoop(q, ids).0);
  }

  lemma RetireHands(q: Queue, id: Id, e: Entry, delivered: bool)
    ensures SameHands(Retire(q, id, e, delivered), q)
  {
    hide Settle, Release;
    if e.RefEntry? {
      ReleaseFrame(q, e.ref);
      SettleFrame(Release(q, e.ref), id);
    }
  }

  lemma {:induction false} DropAllHands(q: Queue, ids: seq<Id>)
    ensures SameHands(DropAll(q, ids), q)
    decreases |ids|
  {
    hide Retire;
    if ids != [] {
      if ids[0] in q.inflight {
        RetireHands(q.(inflight := q.inflight - {ids[0]}), ids[0], q.inflight[ids[0]], false);
      }
      DropAllHands(DropOne(q, ids[0]), ids[1..]);
    }
  }

  lemma DropHands(q: Queue, ids: seq<Id>)
    ensures SameHands(Drop(q, ids).0, q)
  {
    hide DropAll, Compact;
    DropAllHands(q, ids);
    CompactFrame(DropAll(q, ids));
  }

  lemma NackHands(q: Queue, ids: seq<Id>, kind: NackKind)
    requires InHand(q) == 0
    ensures InHand(Nack(q, ids, kind).0) == 0
  {
    hide TakeBackAll, ReturnRefs, ReturnItems, Compact;
    var q1 := TakeBackAll(q, ids, kind);
    ReturnRefsPath(q1);
    var q2 := ReturnRefs(q1);
    ReturnItemsPath(q2, true);
    CompactFrame(ReturnItems(q2, true).0);
  }

  lemma FlushOneHands(q: Queue)
    requires q.mem != [] && q.store.Some?
    ensures SameHands(FlushOne(q).0, q) && FlushOne(q).0.mem == q.mem[1..]
  {
    hide AppendItem;
  }

  lemma {:induction false} FlushHands(q: Queue)
    ensures SameHands(Flush(q).0, q)
    decreases |q.mem|
  {
    hide FlushOne;
    if q.mem != [] && q.store.Some? {
      FlushOneHands(q);
      FlushHands(FlushOne(q).0);
    }
  }

  lemma CloseHands(q: Queue)
    ensures SameHands(Close(q).0, q)
  {
    hide Flush;
    FlushHands(q.(closed := true));
  }

  // ---- Whole runs ----

  datatype Op =
    | DoEnqueue(item: Item)
    | DoDequeue(n: int, checks: nat, now: int)
    | DoAck(ids: seq<Id>)
    | DoNack(ids: seq<Id>, kind: NackKind)
    | DoDrop(ids: seq<Id>)
    | DoClose
    | DoRestart(cfg: Config, io: nat -> IO, found: seq<DiskRef>)

  /** Arriving items have fresh ids and fit the readers; a restart finds what a replay returns. */
  ghost predicate Allowed(q: Queue, op: Op) {
    match op
    case DoEnqueue(item) => item.id !in q.led.seen && Fits(item)
    case DoRestart(cfg, io, found) =>
      && q.store.Some? && cfg.maxMemory > 0
      && Enumerates(found, Recover(Reopened(q.store.value.segs, DiskBudget(cfg), io).segs).pending)
    case _ => true
  }

  ghost function Do(q: Queue, op: Op): Queue
    requires Allowed(q, op)
  {
    match op
    case DoEnqueue(item) => Enqueue(q, item).0
    case DoDequeue(n, checks, now) => Dequeue(q, n, checks, now).0
    case DoAck(ids) => Ack(q, ids).0
    case DoNack(ids, kind) => Nack(q, ids, kind).0
    case DoDrop(ids) => Drop(q, ids).0
    case DoClose => Close(q).0
    case DoRestart(cfg, io, found) => Start(cfg, q.store.value.segs, io, found, q.led)
  }

  /** Where the steps of an operation begin: a restart's at the boot over the files. */
  ghost function Origin(q: Queue, op: Op): Queue
    requires Allowed(q, op)
  {
    if op.DoRestart? then Boot(op.cfg, q.store.value.segs, op.io, q.led) else q
  }

  /** Every operation, with any outcome of any disk call, keeps a good queue good, and is a run of
      single steps: a crash inside it lands on one of their states. */
  lemma DoGood(q: Queue, op: Op)
    requires Allowed(q, op) && Good(q)
    ensures Good(Do(q, op))
    ensures Path(Origin(q, op), Do(q, op)) && Inv(Origin(q, op))
  {
    hide Boot, Path, Inv, Enqueue, Dequeue, Ack, Nack, Drop, Close, Start, Recover, Booted;
    match op
    case DoEnqueue(item) =>
      EnqueuePath(q, item);
      EnqueueHands(q, item);
      PathInv(q, Do(q, op));
    case DoDequeue(n, checks, now) =>
      DequeuePath(q, n, checks, now);
      DequeueHands(q, n, checks, now);
      PathInv(q, Do(q, op));
    case DoAck(ids) =>
      AckPath(q, ids);
      AckHands(q, ids);
      PathInv(q, Do(q, op));
    case DoNack(ids, kind) =>
      NackPath(q, ids, kind);
      NackHands(q, ids, kind);
      PathInv(q, Do(q, op));
    case DoDrop(ids) =>
      DropPath(q, ids);
      DropHands(q, ids);
      PathInv(q, Do(q, op));
    case DoClose =>
      ClosePath(q);
      CloseHands(q);
      PathInv(q, Do(q, op));
    case DoRestart(cfg, io, found) =>
      StartGood(q, cfg, io, found);
  }

  /** The same without the steps. */
  lemma DoKeeps(q: Queue, op: Op)
    requires Allowed(q, op) && Good(q)
    ensures Good(Do(q, op))
  {
    hide Good, Do, Allowed, Path, Inv, Origin;
    DoGood(q, op);
  }

  /** A crash cuts the operation short after the first n of its own steps, at mid. */
  ghost predicate CutAt(q: Queue, op: Op, steps: seq<Step>, n: nat, mid: Queue) {
    && Allowed(q, op) && SameLife(steps) && n <= |steps|
    && Runs(Origin(q, op), steps[..n], mid) && Runs(mid, steps[n..], Do(q, op))
  }

  /** A queue in a running process, or what a crash left behind. */
  datatype Life = Up(q: Queue) | Down(q: Queue)

  /** An operation runs to its end, or a crash cuts it short. */
  datatype Event = Completes(op: Op) | Cut(op: Op, steps: seq<Step>, n: nat, mid: Queue)

  /** After a crash comes nothing but a start, which a crash may cut short again. */
  ghost predicate MayDo(l: Life, op: Op) {
    (l.Up? || op.DoRestart?) && Allowed(l.q, op)
  }

  ghost predicate Happens(l: Life, e: Event) {
    && MayDo(l, e.op)
    && (e.Cut? ==> CutAt(l.q, e.op, e.steps, e.n, e.mid))
  }

  ghost function After(l: Life, e: Event): Life
    requires Happens(l, e)
  {
    if e.Cut? then Down(e.mid) else Up(Do(l.q, e.op))
  }

  ghost predicate GoodLife(l: Life) {
    if l.Up? then Good(l.q) else Inv(l.q)
  }

  lemma LifeInv(l: Life)
    requires GoodLife(l)
    ensures Inv(l.q)
  {
    hide Inv;
  }

  /** An operation in a good life, or a start after a crash, is a run of steps to a good queue. */
  lemma LifeDoes(l: Life, op: Op)
    requires GoodLife(l) && MayDo(l, op)
    ensures Good(Do(l.q, op)) && Path(Origin(l.q, op), Do(l.q, op)) && Inv(Origin(l.q, op))
  {
    hide Good, Path, Inv, Start, Recover, Boot;
    if op.DoRestart? {
      assert Inv(l.q) by { LifeInv(l); }
      StartGood(l.q, op.cfg, op.io, op.found);
    } else {
      DoGood(l.q, op);
    }
  }

  lemma EventGood(l: Life, e: Event)
    requires Happens(l, e) && GoodLife(l)
    ensures GoodLife(After(l, e))
  {
    hide Do, Inv, Good, Path, Runs, Allowed, Origin;
    LifeDoes(l, e.op);
    if e.Cut? {
      RunInv(Origin(l.q, e.op), e.steps[..e.n], e.mid);
    }
  }

  ghost predicate History(l: Life, events: seq<Event>, l2: Life)
    decreases |events|
  {
    if events == [] then l2 == l else Happens(l, events[0]) && History(After(l, events[0]), events[1..], l2)
  }

  /** A first start: no spill directory, or an empty one. */
  function FirstStart(cfg: Config, spill: bool, io: nat -> IO): Queue {
    if spill then Boot(cfg, [], io, NO_HISTORY) else EmptyQueue(cfg, None, 0, NO_HISTORY)
  }

  lemma FirstStartGood(cfg: Config, spill: bool, io: nat -> IO)
    requires cfg.maxMemory > 0
    ensures Good(FirstStart(cfg, spill, io))
  {
    var empty: Segments := [Some([])];
    var none: Segments := [];
    assert none + [Some([])] == empty;
    assert empty[..0] == [];
    assert Replay(empty) == EMPTY;
    assert AllReadable(empty) by {
      assert forall n | 0 <= n < 1 :: Records(empty, n) == [];
    }
    assert LowestFile(empty) == 0;
    hide Inv;
    if spill {
      EmptyInv(cfg, Some(Reopened([], DiskBudget(cfg), io)), 0, NO_HISTORY);
    } else {
      EmptyInv(cfg, None, 0, NO_HISTORY);
    }
  }

  /** The invariant holds after every history of operations, restarts and crashes inside either, one
      crashed start after another included. */
  lemma {:induction false} HistoryGood(l: Life, events: seq<Event>, l2: Life)
    requires GoodLife(l) && History(l, events, l2)
    ensures GoodLife(l2)
    decreases |events|
  {
    hide GoodLife, Happens, After;
    if events != [] {
      EventGood(l, events[0]);
      HistoryGood(After(l, events[0]), events[1..], l2);
    }
  }

  // ---- A spill directory stays ----

  ghost predicate SameStore(a: Queue, b: Queue) {
    a.store.Some? == b.store.Some?
  }

  lemma SettleStore(q: Queue, id: Id)
    ensures SameStore(Settle(q, id), q)
  {
    hide AppendAck;
  }

  lemma RefGoneStore(q: Queue, fate: Fate, charge: nat)
    requires q.handRefs != []
    ensures SameStore(RefGone(q, fate, charge), q)
  {
    hide Settle, Release, Charged;
    var r := HandRef(q);
    var q1 := Charged(LessRef(q), r.id, charge);
    assert SameStore(q1, q) by { ChargedStore(LessRef(q), r.id, charge); }
    ReleaseFrame(q1, r);
    SettleStore(Release(q1, r), r.id);
  }

  lemma ChargedStore(q: Queue, id: Id, charge: nat)
    ensures Charged(q, id, charge).store == q.store
  {
  }

  lemma RemoveStore(q: Queue)
    requires q.store.Some?
    ensures RemoveLowest(q).0.store.Some?
  {
    hide Remove, Replay;
  }

  lemma CutOffStore(q: Queue, ref: DiskRef)
    ensures SameStore(CutOff(q, ref), q)
  {
    hide Settle;
    SettleStore(q.(led := q.led.(accepted := q.led.accepted + {ref.id})), ref.id);
  }

  lemma CrashedStore(q: Queue, cfg: Config, io: nat -> IO)
    ensures SameStore(Crashed(q, cfg, io), q)
  {
    hide Reopened, LowestFile, Replay;
  }

  lemma StepStore(q: Queue, step: Step)
    requires Enabled(q, step)
    ensures SameStore(Apply(q, step), q)
  {
    hide AppendItem, Crashed, RefGone, CutOff, RemoveLowest;
    match step
    case RefFate(fate, charge) => RefGoneStore(q, fate, charge);
    case Reclaim => RemoveStore(q);
    case Crash(cfg, io) => CrashedStore(q, cfg, io);
    case CutOffRef(ref) => CutOffStore(q, ref);
    case _ => OtherStepStore(q, step);
  }

  lemma OtherStepStore(q: Queue, step: Step)
    requires Enabled(q, step) && !step.RefFate? && !step.Reclaim? && !step.Crash? && !step.CutOffRef?
    ensures SameStore(Apply(q, step), q)
  {
    hide AppendItem, Crashed, RefGone, CutOff, RemoveLowest;
  }

  lemma {:induction false} RunStore(q: Queue, steps: seq<Step>, q2: Queue)
    requires Runs(q, steps, q2)
    ensures SameStore(q2, q)
    decreases |steps|
  {
    hide Enabled, Apply;
    if steps != [] {
      StepStore(q, steps[0]);
      RunStore(Apply(q, steps[0]), steps[1..], q2);
    }
  }

  lemma PathStore(q: Queue, q2: Queue)
    requires Path(q, q2)
    ensures SameStore(q2, q)
  {
    hide Runs;
    var steps :| Runs(q, steps, q2) && SameLife(steps);
    RunStore(q, steps, q2);
  }

  lemma OriginStore(q: Queue, op: Op)
    requires Allowed(q, op)
    ensures SameStore(Origin(q, op), q)
  {
    hide Recover, Replay, LowestFile, DiskBytes, SegmentSize;
  }

  lemma EventStore(l: Life, e: Event)
    requires Happens(l, e) && GoodLife(l) && l.q.store.Some?
    ensures After(l, e).q.store.Some?
  {
    hide Do, Path, GoodLife, Runs, Origin, Allowed;
    OriginStore(l.q, e.op);
    if e.Cut? {
      RunStore(Origin(l.q, e.op), e.steps[..e.n], e.mid);
    } else {
      LifeDoes(l, e.op);
      PathStore(Origin(l.q, e.op), Do(l.q, e.op));
    }
  }

  lemma {:induction false} HistoryStore(l: Life, events: seq<Event>, l2: Life)
    requires GoodLife(l) && History(l, events, l2) && l.q.store.Some?
    ensures l2.q.store.Some?
    decreases |events|
  {
    hide GoodLife, Happens, After;
    if events != [] {
      EventGood(l, events[0]);
      EventStore(l, events[0]);
      HistoryStore(After(l, events[0]), events[1..], l2);
    }
  }
}
