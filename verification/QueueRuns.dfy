/** Every operation of the queue is a run of the steps that keep the invariant, so the invariant
    holds after any sequence of operations, and at any point inside one a crash may come. */
module QueueRuns {
  import opened Bytes
  import opened WalCodec
  import opened Wal
  import opened SpillDisk
  import opened QueueModel
  import opened QueueInvariant
  import opened QueueSteps
  import opened QueueStepProofs

  ghost predicate Runs(q: Queue, steps: seq<Step>, q2: Queue)
    decreases |steps|
  {
    if steps == [] then q2 == q
    else Enabled(q, steps[0]) && Runs(Apply(q, steps[0]), steps[1..], q2)
  }

  ghost predicate SameLife(steps: seq<Step>) {
    forall s | s in steps :: !s.Crash?
  }

  /** q2 is reached from q within one process life. */
  ghost predicate Path(q: Queue, q2: Queue) {
    exists steps :: Runs(q, steps, q2) && SameLife(steps)
  }

  lemma Stay(q: Queue)
    ensures Path(q, q)
  {
    assert Runs(q, [], q) && SameLife([]);
  }

  lemma {:induction false} RunsConcat(a: Queue, s: seq<Step>, b: Queue, t: seq<Step>, c: Queue)
    requires Runs(a, s, b) && Runs(b, t, c)
    ensures Runs(a, s + t, c)
    decreases |s|
  {
    hide Enabled, Apply;
    if s == [] {
      assert s + t == t;
    } else {
      RunsConcat(Apply(a, s[0]), s[1..], b, t, c);
      assert (s + t)[0] == s[0] && (s + t)[1..] == s[1..] + t;
    }
  }

  lemma Join(a: Queue, b: Queue, c: Queue)
    requires Path(a, b) && Path(b, c)
    ensures Path(a, c)
  {
    hide Runs;
    var s :| Runs(a, s, b) && SameLife(s);
    var t :| Runs(b, t, c) && SameLife(t);
    RunsConcat(a, s, b, t, c);
    assert SameLife(s + t);
  }

  lemma Go(q: Queue, step: Step)
    requires Enabled(q, step) && !step.Crash?
    ensures Path(q, Apply(q, step))
  {
    hide Enabled, Apply;
    assert Runs(Apply(q, step), [], Apply(q, step));
    assert [step][1..] == [];
    assert Runs(q, [step], Apply(q, step)) && SameLife([step]);
  }

  lemma Then(a: Queue, q: Queue, step: Step)
    requires Path(a, q) && Enabled(q, step) && !step.Crash?
    ensures Path(a, Apply(q, step))
  {
    hide Path, Enabled, Apply;
    Go(q, step);
    Join(a, q, Apply(q, step));
  }

  // The single steps the operations are made of.

  lemma GoQuiet(a: Queue, q: Queue, d: Disk)
    requires Path(a, q) && q.store.Some? && Quiet(q.store.value.segs, d.segs)
    ensures Path(a, q.(store := Some(d)))
  {
    hide Path;
    Then(a, q, Quietly(d));
  }

  lemma GoFromFlight(q: Queue, id: Id)
    requires id in q.inflight
    ensures Path(q, OutOfFlight(q, id))
  {
    hide Path;
    Go(q, FromFlight(id));
  }

  lemma GoRefFate(a: Queue, q: Queue, fate: Fate, charge: nat)
    requires Path(a, q) && q.handRefs != [] && q.store.Some? && !fate.FateLost?
    requires fate.FateAcked? ==> AppendAck(q.store.value, HandRef(q).id).1.Written?
    ensures Path(a, RefGone(q, fate, charge))
  {
    hide Path;
    Then(a, q, RefFate(fate, charge));
  }

  lemma GoItemFate(a: Queue, q: Queue, fate: Fate, charge: nat)
    requires Path(a, q) && q.handItems != []
    ensures Path(a, ItemGone(q, fate, charge))
  {
    hide Path;
    Then(a, q, ItemFate(fate, charge));
  }

  /** The invariant holds at every point of every run: in particular wherever a crash cuts an
      operation short. */
  lemma {:induction false} RunInv(q: Queue, steps: seq<Step>, q2: Queue)
    requires Inv(q) && Runs(q, steps, q2)
    ensures Inv(q2)
    decreases |steps|
  {
    hide Inv, Enabled, Apply;
    if steps != [] {
      StepKeeps(q, steps[0]);
      RunInv(Apply(q, steps[0]), steps[1..], q2);
    }
  }

  lemma PathInv(q: Queue, q2: Queue)
    requires Inv(q) && Path(q, q2)
    ensures Inv(q2)
    ensures Booted(q) ==> Booted(q2)
  {
    hide Inv, Runs, Booted;
    var s :| Runs(q, s, q2) && SameLife(s);
    RunInv(q, s, q2);
    if Booted(q) {
      RunBooted(q, s, q2);
    }
  }

  /** Every id a replay would return was accepted or recovered in this life: nothing recovered is
      still waiting to be taken up. */
  ghost predicate Booted(q: Queue) {
    q.led.stale <= q.led.accepted
  }

  lemma StepBooted(q: Queue, step: Step)
    requires Enabled(q, step) && !step.Crash?
    requires Inv(q) && Booted(q)
    ensures Booted(Apply(q, step))
  {
    hide Inv, Replay, AppendAck, AppendItem, Remove;
    match step {
      case RefFate(fate, charge) =>
        InvRefHeld(q);
        hide RefGone;
        RefGoneLedger(q, fate, charge);
      case ItemFate(fate, charge) =>
        ItemGoneShape(q, fate, charge);
      case _ =>
    }
  }

  lemma RefGoneLedger(q: Queue, fate: Fate, charge: nat)
    requires q.handRefs != []
    ensures RefGone(q, fate, charge).led.accepted == q.led.accepted
    ensures RefGone(q, fate, charge).led.stale <= q.led.stale + {HandRef(q).id}
  {
    hide AppendAck, Release, MarkFate;
    var id := HandRef(q).id;
    var q1 := Charged(LessRef(q), id, charge);
    ReleaseFrame(q1, HandRef(q));
    MarkFateShape(Settle(Release(q1, HandRef(q)), id), id, fate);
  }

  lemma InvRefHeld(q: Queue)
    requires Inv(q) && q.handRefs != []
    ensures HandRef(q).id in q.led.accepted
  {
    hide LogInv, ClaimsExact, Placed, Unsettled, TriedAll, Counted, Bounded, Holding, Conserved;
    HandRefHeld(q);
    HeldAccepted(q, HandRef(q).id);
  }

  lemma {:induction false} RunBooted(q: Queue, steps: seq<Step>, q2: Queue)
    requires Inv(q) && Booted(q) && Runs(q, steps, q2) && SameLife(steps)
    ensures Booted(q2)
    decreases |steps|
  {
    hide Inv, Enabled, Apply, Booted;
    if steps != [] {
      StepKeeps(q, steps[0]);
      StepBooted(q, steps[0]);
      assert SameLife(steps[1..]);
      RunBooted(Apply(q, steps[0]), steps[1..], q2);
    }
  }

  /** Cutting a run short anywhere leaves the queue in a state that satisfies the invariant. */
  lemma {:induction false} CutRun(q: Queue, done: seq<Step>, left: seq<Step>, q2: Queue) returns (mid: Queue)
    requires Inv(q) && Runs(q, done + left, q2)
    ensures Runs(q, done, mid) && Runs(mid, left, q2) && Inv(mid)
    decreases |done|
  {
    hide Inv, Enabled, Apply;
    if done == [] {
      mid := q;
      assert done + left == left;
    } else {
      var steps := done + left;
      assert steps[0] == done[0] && steps[1..] == done[1..] + left;
      StepKeeps(q, done[0]);
      mid := CutRun(Apply(q, done[0]), done[1..], left, q2);
    }
  }

  // ---- Enqueue ----

  lemma Fresh1(q: Queue, item: Item)
    requires item.id !in q.led.seen && Fits(item) && CanAccept(q, ItemSize(item))
    ensures Path(q, Accept(q, item))
  {
    hide Path;
    Go(q, Fresh(item));
    var q1 := Apply(q, Fresh(item));
    assert q1.handItems[..|q1.handItems| - 1] == q.handItems;
    Then(q, q1, Stow);
    assert Apply(q1, Stow) == Accept(q, item);
  }

  lemma RoomBack(q: Queue)
    requires q.mem != [] && Counted(q)
    ensures CanAccept(Take(q), ItemSize(q.mem[0]))
  {
    hide SumSizes;
    SumSizesHead(q.mem);
  }

  lemma LessGrabbed(q: Queue)
    requires q.mem != []
    ensures LessItem(PullItem(q)) == Take(q) && HandItem(PullItem(q)) == q.mem[0]
  {
    assert PullItem(q).handItems[..|q.handItems|] == q.handItems;
  }

  /** A spill that is not written leaves the records alone. */
  lemma SpillShape(q: Queue, item: Item)
    requires q.store.Some?
    ensures var (q', res) := SpillItem(q, item);
            && q'.store.Some?
            && (!res.Written? ==> q' == q.(store := q'.store) && Quiet(q.store.value.segs, q'.store.value.segs))
  {
    hide Append;
    if Encodable(item) {
      var base := AppendShape(q.store.value, ItemRec(item));
    }
  }

  lemma EvictPath(q: Queue)
    requires Counted(q) && q.handRefs == []
    ensures Path(q, Evict(q).0)
    ensures Evict(q).0.handRefs == []
  {
    hide Path, AppendItem, Counted;
    if q.mem == [] {
      Stay(q);
    } else {
      var q1 := PullItem(q);
      LessGrabbed(q);
      Go(q, Grab);
      if q.store.None? {
        Then(q, q1, ItemFate(FateDropped, 0));
      } else if RefsFull(q1) {
        RoomBack(q);
        Then(q, q1, Stow);
      } else {
        SpillShape(Take(q), q.mem[0]);
        var (q2, res) := SpillItem(Take(q), q.mem[0]);
        if res.Written? {
          Then(q, q1, SpillHand);
        } else {
          var d := q2.store.value;
          Then(q, q1, Quietly(d));
          RoomBack(q);
          Then(q, Apply(q1, Quietly(d)), Stow);
        }
      }
    }
  }

  lemma InvCounted(q: Queue)
    requires Inv(q)
    ensures Counted(q)
  {
    hide Conserved, Holding, LogInv, ClaimsExact, Placed, Unsettled, TriedAll, Counted, Bounded;
  }

  lemma {:induction false} MakeRoomPath(q: Queue, need: int)
    requires Inv(q) && q.handRefs == []
    ensures Path(q, MakeRoom(q, need).0)
    ensures MakeRoom(q, need).0.handRefs == []
    decreases |q.mem|
  {
    hide Path, Inv, AppendItem;
    if CanAccept(q, need) || q.mem == [] {
      Stay(q);
    } else {
      InvCounted(q);
      EvictPath(q);
      var (q1, ok) := Evict(q);
      if ok {
        PathInv(q, q1);
        MakeRoomPath(q1, need);
        Join(q, q1, MakeRoom(q1, need).0);
      }
    }
  }

  lemma RefsHaveStore(q: Queue)
    requires Inv(q) && (q.refs != [] || q.handRefs != [])
    ensures q.store.Some?
  {
    hide Conserved, Holding, ClaimsExact, Unsettled, TriedAll, Counted, Bounded, LogExact;
    if q.refs != [] {
      assert At(q.led.loc, q.refs[0]);
    } else {
      assert At(q.led.loc, q.handRefs[0]);
    }
  }

  lemma LessGrabbedRef(q: Queue)
    requires q.refs != []
    ensures LessRef(RefToHand(q)) == q.(refs := q.refs[1..], diskCount := q.diskCount - 1)
    ensures HandRef(RefToHand(q)) == q.refs[0]
  {
    assert RefToHand(q).handRefs[..|q.handRefs|] == q.handRefs;
  }

  lemma DropOldestPath(q: Queue)
    requires Inv(q)
    ensures Path(q, DropOldest(q))
  {
    hide Path, Inv, AppendAck;
    if q.mem != [] {
      LessGrabbed(q);
      Go(q, Grab);
      Then(q, PullItem(q), ItemFate(FateDropped, 0));
    } else if q.refs != [] {
      RefsHaveStore(q);
      LessGrabbedRef(q);
      Go(q, GrabRef);
      Then(q, RefToHand(q), RefFate(FateDropped, 0));
    } else {
      Stay(q);
    }
  }

  /** An arriving item written straight to disk. */
  lemma FreshSpill(q: Queue, item: Item)
    requires item.id !in q.led.seen && Fits(item)
    requires q.store.Some? && q.handRefs == [] && !RefsFull(q) && SpillItem(q, item).1.Written?
    ensures Path(q, Admit(SpillItem(q, item).0, item))
  {
    hide Path, AppendItem;
    Go(q, Fresh(item));
    var q1 := Apply(q, Fresh(item));
    assert q1.handItems[..|q1.handItems| - 1] == q.handItems;
    assert LessItem(q1) == Admit(q, item) && HandItem(q1) == item;
    Then(q, q1, SpillHand);
    assert Apply(q1, SpillHand) == Admit(SpillItem(q, item).0, item);
  }

  lemma EvictKeepsSeen(q: Queue)
    ensures Evict(q).0.led.seen == q.led.seen
  {
    hide AppendItem;
  }

  lemma {:induction false} MakeRoomKeepsSeen(q: Queue, need: int)
    ensures MakeRoom(q, need).0.led.seen == q.led.seen
    decreases |q.mem|
  {
    hide Evict;
    EvictKeepsSeen(q);
    if !CanAccept(q, need) && q.mem != [] && Evict(q).1 {
      assert |Evict(q).0.mem| < |q.mem| by { EvictShrinks(q); }
      MakeRoomKeepsSeen(Evict(q).0, need);
    }
  }

  lemma EvictShrinks(q: Queue)
    requires q.mem != [] && Evict(q).1
    ensures Evict(q).0.mem == q.mem[1..]
  {
    hide AppendItem;
  }

  lemma DropOldestKeepsSeen(q: Queue)
    ensures DropOldest(q).led.seen == q.led.seen
  {
    hide Settle, Release;
    if q.mem == [] && q.refs != [] {
      var q1 := q.(refs := q.refs[1..], diskCount := q.diskCount - 1);
      ReleaseFrame(q1, q.refs[0]);
      SettleFrame(Release(q1, q.refs[0]), q.refs[0].id);
    }
  }

  lemma ReleaseFrame(q: Queue, ref: DiskRef)
    ensures var q' := Release(q, ref);
            q' == q.(claims := q'.claims, underflows := q'.underflows, led := q.led.(loc := q.led.loc - {ref.id}))
  {
  }

  lemma SettleFrame(q: Queue, id: Id)
    ensures var q' := Settle(q, id);
            && q' == q.(store := q'.store, led := q'.led)
            && q'.led == q.led.(durable := q'.led.durable, stale := q'.led.stale)
  {
    hide AppendAck;
  }

  lemma EnqueuePath(q: Queue, item: Item)
    requires Inv(q) && q.handRefs == []
    requires item.id !in q.led.seen && Fits(item)
    ensures Path(q, Enqueue(q, item).0)
  {
    hide Path, Inv, AppendItem, MakeRoom, DropOldest, CanAccept;
    var size := ItemSize(item);
    if q.closed {
      Stay(q);
    } else if CanAccept(q, size) {
      Fresh1(q, item);
    } else if q.store.Some? {
      MakeRoomPath(q, size);
      MakeRoomKeepsSeen(q, size);
      var (q1, ok) := MakeRoom(q, size);
      if ok {
        if CanAccept(q1, size) {
          Fresh1(q1, item);
          Join(q, q1, Accept(q1, item));
        } else if !RefsFull(q1) {
          SpillShape(q1, item);
          var (q2, res) := SpillItem(q1, item);
          if res.Written? {
            FreshSpill(q1, item);
            Join(q, q1, Admit(q2, item));
          } else {
            Then(q, q1, Quietly(q2.store.value));
          }
        }
      }
    } else {
      DropOldestPath(q);
      DropOldestKeepsSeen(q);
      var q1 := DropOldest(q);
      if CanAccept(q1, size) {
        Fresh1(q1, item);
        Join(q, q1, Accept(q1, item));
      }
    }
  }

  // ---- Dequeue ----

  lemma ReadShape(d: Disk, segment: nat, offset: nat)
    ensures ReadItem(d, segment, offset).0.segs == d.segs
  {
    hide ReadAt, SegmentBytes;
  }

  lemma PullRefPath(q: Queue)
    requires q.refs != [] && q.store.Some?
    ensures Path(q, PullRef(q).0)
  {
    hide Path, ReadItem, AppendAck;
    var ref := q.refs[0];
    var (d, res) := ReadItem(q.store.value, ref.segment, ref.offset);
    ReadShape(q.store.value, ref.segment, ref.offset);
    Stay(q);
    GoQuiet(q, q, d);
    var q1 := q.(store := Some(d));
    if !res.ReadClosed? {
      LessGrabbedRef(q1);
      Then(q, q1, GrabRef);
      if !(res.Read? && res.item.id == ref.id) {
        GoRefFate(q, RefToHand(q1), FateDropped, 0);
      }
    }
  }

  lemma {:induction false} DequeueOnePath(q: Queue)
    ensures Path(q, DequeueOne(q).0)
    decreases |q.refs|
  {
    hide Path, PullRef;
    if q.refs != [] && q.store.Some? {
      PullRefPath(q);
      PullShrinks(q);
      var (q1, pull) := PullRef(q);
      if pull.Skipped? {
        DequeueOnePath(q1);
        Join(q, q1, DequeueOne(q1).0);
      }
    } else if q.mem != [] {
      Go(q, Grab);
    } else {
      Stay(q);
    }
  }

  lemma PullShrinks(q: Queue)
    requires q.refs != [] && q.store.Some?
    ensures PullRef(q).1.Skipped? ==> PullRef(q).0.refs == q.refs[1..]
  {
    hide ReadItem, Settle, Release;
    var ref := q.refs[0];
    var q1 := q.(store := Some(ReadItem(q.store.value, ref.segment, ref.offset).0), refs := q.refs[1..],
                 diskCount := q.diskCount - 1);
    ReleaseFrame(q1, ref);
    SettleFrame(Release(q1, ref), ref.id);
  }

  lemma {:induction false} PullBatchPath(q: Queue, n: nat, checks: nat, batch: seq<Item>)
    ensures Path(q, PullBatch(q, n, checks, batch).0)
    decreases checks
  {
    hide Path, DequeueOne;
    if |batch| >= n || checks == 0 {
      Stay(q);
    } else {
      DequeueOnePath(q);
      var (q1, got) := DequeueOne(q);
      if got.Some? {
        PullBatchPath(q1, n, checks - 1, batch + [got.value]);
        Join(q, q1, PullBatch(q1, n, checks - 1, batch + [got.value]).0);
      }
    }
  }

  lemma {:induction false} RegisterPath(q: Queue, now: int)
    ensures Path(q, Register(q, now))
    decreases |q.handRefs| + |q.handItems|
  {
    hide Path;
    if q.handRefs != [] {
      Go(q, ToFlightRef(now));
      RegisterPath(RegisterRef(q, now), now);
      Join(q, RegisterRef(q, now), Register(q, now));
    } else if q.handItems != [] {
      Go(q, ToFlightItem(now));
      RegisterPath(RegisterItem(q, now), now);
      Join(q, RegisterItem(q, now), Register(q, now));
    } else {
      Stay(q);
    }
  }

  lemma RemoveShape(q: Queue)
    requires q.store.Some?
    ensures var (q', ok) := RemoveLowest(q);
            && q'.store.Some?
            && (!ok ==> q' == q.(store := q'.store) && q'.store.value.segs == q.store.value.segs)
            && (ok ==> q'.lowest == q.lowest + 1 && |q'.store.value.segs| == |q.store.value.segs|)
  {
    hide Replay, DiskBytes;
  }

  lemma {:induction false} CompactPath(q: Queue)
    ensures Path(q, Compact(q))
    decreases if q.store.Some? then Active(q.store.value.segs) - q.lowest else 0
  {
    hide Path, RemoveLowest;
    if !Spent(q) {
      Stay(q);
    } else {
      RemoveShape(q);
      var (q1, ok) := RemoveLowest(q);
      if ok {
        Go(q, Reclaim);
        CompactPath(q1);
        Join(q, q1, Compact(q1));
      } else {
        Go(q, Quietly(q1.store.value));
      }
    }
  }

  lemma DequeuePath(q: Queue, n: int, checks: nat, now: int)
    ensures Path(q, Dequeue(q, n, checks, now).0)
  {
    hide Path, PullBatch, Compact, Register;
    Stay(q);
    if n > 0 && checks > 1 {
      var (q1, batch) := PullBatch(q, n, checks - 1, []);
      PullBatchPath(q, n, checks - 1, []);
      CompactPath(q1);
      var q2 := Compact(q1);
      Join(q, q1, q2);
      RegisterPath(q2, now);
      Join(q, q2, Register(q2, now));
    }
  }

  // ---- Ack, nack, drop ----

  /** What the invariant says of one item in flight. */
  lemma FlightFacts(q: Queue, id: Id)
    requires Inv(q) && id in q.inflight
    ensures EntryId(q.inflight[id]) == id && id !in q.led.stale
            && Tried(q.led.start, q.led.charges, id, AttemptsOf(q.inflight[id]))
    ensures q.inflight[id].RefEntry? ==> q.store.Some?
  {
    hide Conserved, ClaimsExact, Counted, Bounded, LogExact, RefBag, ItemBag;
    assert id in Holding(q);
    if q.inflight[id].RefEntry? {
      assert At(q.led.loc, q.inflight[id].ref);
    }
  }

  lemma LessUnflown(q: Queue, id: Id)
    requires id in q.inflight
    ensures var q1 := OutOfFlight(q, id); var q0 := q.(inflight := q.inflight - {id});
            match q.inflight[id]
            case RefEntry(ref, _) => LessRef(q1) == q0 && HandRef(q1) == ref
            case MemEntry(item, _) => LessItem(q1) == q0 && HandItem(q1) == item
  {
    var q1 := OutOfFlight(q, id);
    match q.inflight[id] {
      case RefEntry(ref, _) => assert q1.handRefs[..|q.handRefs|] == q.handRefs;
      case MemEntry(item, _) => assert q1.handItems[..|q.handItems|] == q.handItems;
    }
  }

  lemma AckShape(d: Disk, id: Id)
    ensures var (d', res) := AppendAck(d, id); !res.Written? ==> Quiet(d.segs, d'.segs)
  {
    hide Append;
    var base := AppendShape(d, AckRec(id));
  }

  lemma AckIsFate(q: Queue, id: Id)
    requires id in q.inflight && EntryId(q.inflight[id]) == id && id !in q.led.stale
    requires q.inflight[id].RefEntry? ==> q.store.Some? && AppendAck(q.store.value, id).1.Written?
    ensures var q1 := OutOfFlight(q, id);
            AckOne(q, id).0 ==
            if q.inflight[id].RefEntry? then RefGone(q1, FateAcked, 0) else ItemGone(q1, FateAcked, 0)
  {
    hide AppendAck, Release;
    LessUnflown(q, id);
    hide OutOfFlight, LessRef, LessItem, HandRef, HandItem;
    if q.inflight[id].RefEntry? {
      ReleaseFrame(q.(inflight := q.inflight - {id}), q.inflight[id].ref);
      assert q.led.stale - {id} == q.led.stale;
    }
  }

  lemma AckOnePath(q: Queue, id: Id)
    requires Inv(q)
    ensures Path(q, AckOne(q, id).0)
  {
    hide Path, Inv, AppendAck, RefGone, ItemGone;
    Stay(q);
    if id in q.inflight {
      FlightFacts(q, id);
      LessUnflown(q, id);
      var q1 := OutOfFlight(q, id);
      if q.inflight[id].MemEntry? {
        AckIsFate(q, id);
        GoFromFlight(q, id);
        GoItemFate(q, q1, FateAcked, 0);
      } else if AppendAck(q.store.value, id).1.Written? {
        AckIsFate(q, id);
        GoFromFlight(q, id);
        GoRefFate(q, q1, FateAcked, 0);
      } else {
        AckShape(q.store.value, id);
        GoQuiet(q, q, AppendAck(q.store.value, id).0);
      }
    }
  }

  lemma {:induction false} AckLoopPath(q: Queue, ids: seq<Id>)
    requires Inv(q)
    ensures Path(q, AckLoop(q, ids).0)
    decreases |ids|
  {
    hide Path, Inv, AckOne;
    if ids == [] {
      Stay(q);
    } else {
      AckOnePath(q, ids[0]);
      var (q1, ok) := AckOne(q, ids[0]);
      if ok {
        PathInv(q, q1);
        AckLoopPath(q1, ids[1..]);
        Join(q, q1, AckLoop(q1, ids[1..]).0);
      }
    }
  }

  lemma AckPath(q: Queue, ids: seq<Id>)
    requires Inv(q)
    ensures Path(q, Ack(q, ids).0)
  {
    hide Path, Inv, AckLoop, Compact;
    Stay(q);
    if !q.closed {
      AckLoopPath(q, ids);
      var q1 := AckLoop(q, ids).0;
      CompactPath(q1);
      Join(q, q1, Compact(q1));
    }
  }

  function RetiredAs(kind: NackKind): Fate {
    if kind.NackDelivered? then FateUnrecorded else FateDropped
  }

  lemma RetireIsFate(q: Queue, id: Id, kind: NackKind)
    requires id in q.inflight && EntryId(q.inflight[id]) == id
    requires AttemptsOf(q.inflight[id]) + ChargeOf(kind) > MAX_ATTEMPTS
    ensures var q1 := OutOfFlight(q, id); var fate := RetiredAs(kind);
            TakeBack(q, id, kind) ==
            if q.inflight[id].RefEntry? then RefGone(q1, fate, ChargeOf(kind)) else ItemGone(q1, fate, ChargeOf(kind))
  {
    hide TakeBack, RefGone, ItemGone;
    LessUnflown(q, id);
    if q.inflight[id].RefEntry? {
      RetireRefIsFate(q, id, kind);
    } else {
      RetireItemIsFate(q, id, kind);
    }
  }

  lemma RetireRefIsFate(q: Queue, id: Id, kind: NackKind)
    requires id in q.inflight && EntryId(q.inflight[id]) == id && q.inflight[id].RefEntry?
    requires AttemptsOf(q.inflight[id]) + ChargeOf(kind) > MAX_ATTEMPTS
    ensures TakeBack(q, id, kind) == RefGone(OutOfFlight(q, id), RetiredAs(kind), ChargeOf(kind))
  {
    hide OutOfFlight, LessRef, LessItem, HandRef, HandItem, Settle, Release, TakeBack, Retire, MarkFate, Charged;
    LessUnflown(q, id);
    TakeBackRetires(q, id, kind);
    RetireMarks(Charged(q.(inflight := q.inflight - {id}), id, ChargeOf(kind)), id, q.inflight[id], kind);
  }

  lemma TakeBackRetires(q: Queue, id: Id, kind: NackKind)
    requires id in q.inflight && AttemptsOf(q.inflight[id]) + ChargeOf(kind) > MAX_ATTEMPTS
    ensures TakeBack(q, id, kind)
            == Retire(Charged(q.(inflight := q.inflight - {id}), id, ChargeOf(kind)), id, q.inflight[id],
                kind.NackDelivered?)
  {
    hide Retire;
  }

  lemma RetireMarks(q: Queue, id: Id, e: Entry, kind: NackKind)
    requires e.RefEntry?
    ensures Retire(q, id, e, kind.NackDelivered?) == MarkFate(Settle(Release(q, e.ref), id), id, RetiredAs(kind))
  {
    hide Settle, Release;
    ReleaseFrame(q, e.ref);
    SettleFrame(Release(q, e.ref), id);
  }

  lemma RetireItemIsFate(q: Queue, id: Id, kind: NackKind)
    requires id in q.inflight && EntryId(q.inflight[id]) == id && q.inflight[id].MemEntry?
    requires AttemptsOf(q.inflight[id]) + ChargeOf(kind) > MAX_ATTEMPTS
    ensures TakeBack(q, id, kind) == ItemGone(OutOfFlight(q, id), RetiredAs(kind), ChargeOf(kind))
  {
    LessUnflown(q, id);
    hide OutOfFlight, LessRef, LessItem, HandRef, HandItem, Settle, Release;
  }

  lemma RetirePath(q: Queue, id: Id, kind: NackKind)
    requires Inv(q) && id in q.inflight && AttemptsOf(q.inflight[id]) + ChargeOf(kind) > MAX_ATTEMPTS
    ensures Path(q, TakeBack(q, id, kind))
  {
    hide Path, Inv, AppendAck, RefGone, ItemGone, TakeBack;
    FlightFacts(q, id);
    LessUnflown(q, id);
    var q1 := OutOfFlight(q, id);
    RetireIsFate(q, id, kind);
    GoFromFlight(q, id);
    if q.inflight[id].RefEntry? {
      GoRefFate(q, q1, RetiredAs(kind), ChargeOf(kind));
    } else {
      GoItemFate(q, q1, RetiredAs(kind), ChargeOf(kind));
    }
  }

  lemma HandBackIsCharge(q: Queue, id: Id, kind: NackKind)
    requires id in q.inflight && EntryId(q.inflight[id]) == id
    requires AttemptsOf(q.inflight[id]) + ChargeOf(kind) <= MAX_ATTEMPTS
    ensures var q1 := OutOfFlight(q, id);
            TakeBack(q, id, kind) ==
            if ChargeOf(kind) == 0 then q1
            else if q.inflight[id].RefEntry? then RefCharged(q1) else ItemCharged(q1)
  {
    hide TakeBack, RefCharged, ItemCharged;
    LessUnflown(q, id);
    if ChargeOf(kind) == 0 {
      UnchargedIsOut(q, id, kind);
    } else if q.inflight[id].RefEntry? {
      RefIsCharged(q, id, kind);
    } else {
      ItemIsCharged(q, id, kind);
    }
  }

  lemma UnchargedIsOut(q: Queue, id: Id, kind: NackKind)
    requires id in q.inflight && ChargeOf(kind) == 0 && AttemptsOf(q.inflight[id]) <= MAX_ATTEMPTS
    ensures TakeBack(q, id, kind) == OutOfFlight(q, id)
  {
  }

  lemma RefIsCharged(q: Queue, id: Id, kind: NackKind)
    requires id in q.inflight && EntryId(q.inflight[id]) == id && q.inflight[id].RefEntry? && ChargeOf(kind) == 1
    requires AttemptsOf(q.inflight[id]) < MAX_ATTEMPTS
    ensures TakeBack(q, id, kind) == RefCharged(OutOfFlight(q, id))
  {
    LessUnflown(q, id);
    hide LessRef, LessItem, HandRef, HandItem;
  }

  lemma ItemIsCharged(q: Queue, id: Id, kind: NackKind)
    requires id in q.inflight && EntryId(q.inflight[id]) == id && q.inflight[id].MemEntry? && ChargeOf(kind) == 1
    requires AttemptsOf(q.inflight[id]) < MAX_ATTEMPTS
    ensures TakeBack(q, id, kind) == ItemCharged(OutOfFlight(q, id))
  {
    LessUnflown(q, id);
    hide LessRef, LessItem, HandRef, HandItem;
  }

  lemma HandBackPath(q: Queue, id: Id, kind: NackKind)
    requires Inv(q) && id in q.inflight && AttemptsOf(q.inflight[id]) + ChargeOf(kind) <= MAX_ATTEMPTS
    ensures Path(q, TakeBack(q, id, kind))
  {
    hide Path, Inv, TakeBack, RefCharged, ItemCharged;
    FlightFacts(q, id);
    LessUnflown(q, id);
    var q1 := OutOfFlight(q, id);
    HandBackIsCharge(q, id, kind);
    Go(q, FromFlight(id));
    if ChargeOf(kind) == 1 {
      Then(q, q1, if q.inflight[id].RefEntry? then ChargeRef else ChargeItem);
    }
  }

  lemma {:induction false} TakeBackAllPath(q: Queue, ids: seq<Id>, kind: NackKind)
    requires Inv(q)
    ensures Path(q, TakeBackAll(q, ids, kind))
    decreases |ids|
  {
    hide Path, Inv;
    if ids == [] {
      Stay(q);
    } else {
      var id := ids[0];
      var q1 := TakeBack(q, id, kind);
      if id !in q.inflight {
        Stay(q);
      } else if AttemptsOf(q.inflight[id]) + ChargeOf(kind) > MAX_ATTEMPTS {
        RetirePath(q, id, kind);
      } else {
        HandBackPath(q, id, kind);
      }
      hide TakeBack;
      PathInv(q, q1);
      TakeBackAllPath(q1, ids[1..], kind);
      Join(q, q1, TakeBackAll(q1, ids[1..], kind));
    }
  }

  lemma {:induction false} ReturnRefsPath(q: Queue)
    ensures Path(q, ReturnRefs(q))
    ensures ReturnRefs(q) == q.(handRefs := [], refs := q.handRefs + q.refs, diskCount := q.diskCount + |q.handRefs|)
    decreases |q.handRefs|
  {
    hide Path;
    if q.handRefs == [] {
      Stay(q);
      assert q.handRefs + q.refs == q.refs;
    } else {
      Go(q, Step.ReturnRef);
      var q1 := QueueModel.ReturnRef(q);
      ReturnRefsPath(q1);
      Join(q, q1, ReturnRefs(q1));
      assert q1.handRefs + q1.refs == q.handRefs + q.refs;
    }
  }

  lemma ReturnItemPath(q: Queue)
    requires q.handItems != [] && q.handRefs == []
    ensures Path(q, ReturnItem(q).0)
    ensures ReturnItem(q).0.handRefs == []
  {
    hide Path, AppendItem, CanAccept;
    var q1 := LessItem(q);
    var item := HandItem(q);
    assert CanAccept(q, ItemSize(item)) == CanAccept(q1, ItemSize(item)) by { RoomSame(q, q1, ItemSize(item)); }
    if CanAccept(q1, ItemSize(item)) {
      Go(q, StowFront);
    } else if q1.store.Some? && !RefsFull(q1) {
      SpillShape(q1, item);
      var (q2, res) := SpillItem(q1, item);
      if res.Written? {
        Go(q, SpillHand);
      } else {
        Go(q, Quietly(q2.store.value));
        Then(q, q.(store := q2.store), ItemFate(FateDropped, 0));
      }
    } else {
      Go(q, ItemFate(FateDropped, 0));
    }
  }

  lemma RoomSame(a: Queue, b: Queue, size: int)
    requires a.cfg == b.cfg && a.mem == b.mem && a.memBytes == b.memBytes
    ensures CanAccept(a, size) == CanAccept(b, size)
  {
  }

  lemma {:induction false} ReturnItemsPath(q: Queue, ok: bool)
    requires q.handRefs == []
    ensures Path(q, ReturnItems(q, ok).0)
    ensures ReturnItems(q, ok).0.handItems == [] && ReturnItems(q, ok).0.handRefs == []
    decreases |q.handItems|
  {
    hide Path, ReturnItem;
    if q.handItems == [] {
      Stay(q);
    } else {
      ReturnItemPath(q);
      ReturnShrinks(q);
      var (q1, ok1) := ReturnItem(q);
      ReturnItemsPath(q1, ok && ok1);
      Join(q, q1, ReturnItems(q1, ok && ok1).0);
    }
  }

  lemma ReturnShrinks(q: Queue)
    requires q.handItems != []
    ensures |ReturnItem(q).0.handItems| == |q.handItems| - 1
  {
    hide AppendItem;
  }

  lemma NackPath(q: Queue, ids: seq<Id>, kind: NackKind)
    requires Inv(q)
    ensures Path(q, Nack(q, ids, kind).0)
  {
    hide Path, Inv, TakeBackAll, ReturnRefs, ReturnItems, Compact;
    Stay(q);
    if !q.closed {
      TakeBackAllPath(q, ids, kind);
      var q1 := TakeBackAll(q, ids, kind);
      ReturnRefsPath(q1);
      var q2 := ReturnRefs(q1);
      Join(q, q1, q2);
      ReturnItemsPath(q2, true);
      var q3 := ReturnItems(q2, true).0;
      Join(q, q2, q3);
      CompactPath(q3);
      Join(q, q3, Compact(q3));
    }
  }

  lemma DropOnePath(q: Queue, id: Id)
    requires Inv(q)
    ensures Path(q, DropOne(q, id))
  {
    hide Path, Inv, AppendAck;
    if id !in q.inflight {
      Stay(q);
    } else {
      FlightFacts(q, id);
      LessUnflown(q, id);
      var q1 := OutOfFlight(q, id);
      GoFromFlight(q, id);
      if q.inflight[id].RefEntry? {
        GoRefFate(q, q1, FateDropped, 0);
        assert RefGone(q1, FateDropped, 0) == DropOne(q, id);
      } else {
        GoItemFate(q, q1, FateDropped, 0);
        assert ItemGone(q1, FateDropped, 0) == DropOne(q, id);
      }
    }
  }

  lemma {:induction false} DropAllPath(q: Queue, ids: seq<Id>)
    requires Inv(q)
    ensures Path(q, DropAll(q, ids))
    decreases |ids|
  {
    hide Path, Inv, DropOne;
    if ids == [] {
      Stay(q);
    } else {
      DropOnePath(q, ids[0]);
      var q1 := DropOne(q, ids[0]);
      PathInv(q, q1);
      DropAllPath(q1, ids[1..]);
      Join(q, q1, DropAll(q1, ids[1..]));
    }
  }

  lemma DropPath(q: Queue, ids: seq<Id>)
    requires Inv(q)
    ensures Path(q, Drop(q, ids).0)
  {
    hide Path, Inv, DropAll, Compact;
    Stay(q);
    if !q.closed {
      DropAllPath(q, ids);
      var q1 := DropAll(q, ids);
      CompactPath(q1);
      Join(q, q1, Compact(q1));
    }
  }

  // ---- Close and start ----

  lemma FlushOnePath(q: Queue)
    requires q.mem != [] && q.store.Some? && q.handRefs == []
    ensures Path(q, FlushOne(q).0)
    ensures FlushOne(q).0.handRefs == [] && FlushOne(q).0.mem == q.mem[1..]
  {
    hide Path, AppendItem;
    LessGrabbed(q);
    Go(q, Grab);
    var q0 := PullItem(q);
    if RefsFull(Take(q)) {
      Then(q, q0, ItemFate(FateDropped, 0));
    } else {
      SpillShape(Take(q), q.mem[0]);
      var (q2, res) := SpillItem(Take(q), q.mem[0]);
      if res.Written? {
        Then(q, q0, SpillHand);
      } else {
        Then(q, q0, Quietly(q2.store.value));
        Then(q, q0.(store := q2.store), ItemFate(FateLost, 0));
      }
    }
  }

  lemma {:induction false} FlushPath(q: Queue)
    requires q.handRefs == []
    ensures Path(q, Flush(q).0)
    decreases |q.mem|
  {
    hide Path, FlushOne;
    if q.mem == [] || q.store.None? {
      Stay(q);
    } else {
      FlushOnePath(q);
      var (q1, ok) := FlushOne(q);
      if ok {
        FlushPath(q1);
        Join(q, q1, Flush(q1).0);
      }
    }
  }

  lemma ClosePath(q: Queue)
    requires q.handRefs == []
    ensures Path(q, Close(q).0)
  {
    hide Path, Flush;
    Stay(q);
    if !q.closed {
      Go(q, SetClosed);
      var q0 := q.(closed := true);
      FlushPath(q0);
      var (q1, ok) := Flush(q0);
      Join(q, q0, q1);
      if ok && q1.store.Some? {
        Then(q, q1, Quietly(CloseStore(q1).store.value));
      }
    }
  }
}
