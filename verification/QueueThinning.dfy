/** First in, first out while reads fail: an unreadable record is dropped where it stands, and what is
    left keeps its order. */
module QueueThinning {
  import opened Bytes
  import opened WalCodec
  import opened Wal
  import opened SpillDisk
  import opened QueueModel
  import opened QueueInvariant
  import opened QueueRuns
  import opened QueueTheorems
  import opened QueueLaws
  import opened QueueCrashes
  import opened QueueFifo

  // ---- Sequences with some elements taken out ----

  /** t is s without some elements whose ids are gone. */
  ghost predicate Thin(s: seq<Item>, t: seq<Item>, gone: set<Id>)
    decreases |s|
  {
    if s == [] then t == []
    else
      || (t != [] && t[0] == s[0] && Thin(s[1..], t[1..], gone))
      || (s[0].id in gone && Thin(s[1..], t, gone))
  }

  lemma {:induction false} ThinSame(s: seq<Item>, gone: set<Id>)
    ensures Thin(s, s, gone)
    decreases |s|
  {
    if s != [] {
      ThinSame(s[1..], gone);
    }
  }

  lemma {:induction false} ThinMore(s: seq<Item>, t: seq<Item>, gone: set<Id>, more: set<Id>)
    requires Thin(s, t, gone) && gone <= more
    ensures Thin(s, t, more)
    decreases |s|
  {
    if s != [] {
      if t != [] && t[0] == s[0] && Thin(s[1..], t[1..], gone) {
        ThinMore(s[1..], t[1..], gone, more);
      } else {
        ThinMore(s[1..], t, gone, more);
      }
    }
  }

  lemma {:induction false} ThinAfter(p: seq<Item>, s: seq<Item>, t: seq<Item>, gone: set<Id>)
    requires Thin(s, t, gone)
    ensures Thin(p + s, p + t, gone)
    decreases |p|
  {
    if p == [] {
      assert p + s == s && p + t == t;
    } else {
      ThinAfter(p[1..], s, t, gone);
      assert (p + s)[1..] == p[1..] + s && (p + t)[1..] == p[1..] + t;
    }
  }

  lemma {:induction false} ThinBefore(s: seq<Item>, t: seq<Item>, e: seq<Item>, gone: set<Id>)
    requires Thin(s, t, gone)
    ensures Thin(s + e, t + e, gone)
    decreases |s|
  {
    if s == [] {
      assert s + e == e && t + e == e;
      ThinSame(e, gone);
    } else {
      assert (s + e)[1..] == s[1..] + e;
      if t != [] && t[0] == s[0] && Thin(s[1..], t[1..], gone) {
        assert (t + e)[1..] == t[1..] + e;
        ThinBefore(s[1..], t[1..], e, gone);
      } else {
        ThinBefore(s[1..], t, e, gone);
      }
    }
  }

  lemma {:induction false} ThinTwice(s: seq<Item>, t: seq<Item>, u: seq<Item>, gone: set<Id>)
    requires Thin(s, t, gone) && Thin(t, u, gone)
    ensures Thin(s, u, gone)
    decreases |s|
  {
    if s != [] {
      if t != [] && t[0] == s[0] && Thin(s[1..], t[1..], gone) {
        if u != [] && u[0] == t[0] && Thin(t[1..], u[1..], gone) {
          ThinTwice(s[1..], t[1..], u[1..], gone);
        } else {
          ThinTwice(s[1..], t[1..], u, gone);
        }
      } else {
        ThinTwice(s[1..], t, u, gone);
      }
    }
  }

  lemma ThinFirst(x: Item, s: seq<Item>, gone: set<Id>)
    requires x.id in gone
    ensures Thin([x] + s, s, gone)
  {
    assert ([x] + s)[1..] == s;
    ThinSame(s, gone);
  }

  // ---- Reading, with reads that may fail ----

  /** Open, queue and store: only reads and writes may fail. */
  ghost predicate Awake(q: Queue) {
    q.store.Some? && !q.store.value.closed && !q.closed
  }

  lemma PathGrows(q: Queue, q2: Queue)
    requires q.store.Some? && Path(q, q2)
    requires Inv(q)
    ensures q2.store.Some? && q.led.dropped <= q2.led.dropped && Inv(q2)
  {
    hide Inv, Runs, Lasts;
    PathInv(q, q2);
    var steps :| Runs(q, steps, q2) && SameLife(steps);
    RunLasts(q, steps, q2);
    assert Grows(q.led, q2.led) && q2.store.Some? by { LastsBoth(q, q2); }
  }

  lemma LastsBoth(q: Queue, q': Queue)
    requires Lasts(q, q')
    ensures q'.store.Some? && Grows(q.led, q'.led)
  {
  }

  /** An unreadable reference is dropped, and nothing queued behind it changes. */
  lemma DropUnreadableContents(q: Queue, ref: DiskRef)
    requires q.store.Some? && SpotAll(q.store.value.segs, q.refs)
    ensures var q' := DropUnreadable(q, ref);
            SameCalm(q, q') && Contents(q') == Contents(q) && ref.id in q'.led.dropped
  {
    hide Settle, Release, SpotAll, ResolveAll, ToldAll, KeepsUnder;
    var q1 := Release(q, ref);
    ReleaseFrame(q, ref);
    SettleSettled(q1, ref.id);
    ResolveKept(q.store.value.segs, Settle(q1, ref.id).store.value.segs, q.refs);
  }

  lemma SpotRest(segs: Segments, refs: seq<DiskRef>)
    requires refs != [] && SpotAll(segs, refs)
    ensures SpotAll(segs, refs[1..])
  {
    hide Spot;
    forall r | r in refs[1..] ensures exists i :: Spot(Records(segs, r.segment), i, r) {
      assert r in refs;
    }
  }

  lemma FirstResolved(q: Queue, d: Disk)
    requires q.store.Some? && q.refs != [] && d.segs == q.store.value.segs
    ensures Contents(q) == [Resolve(d.segs, q.refs[0])]
                           + Contents(q.(store := Some(d), refs := q.refs[1..], diskCount := q.diskCount - 1))
  {
    hide Resolve;
    var segs := d.segs;
    assert ResolveAll(segs, q.refs) == [Resolve(segs, q.refs[0])] + ResolveAll(segs, q.refs[1..]);
    Regroup([], [Resolve(segs, q.refs[0])], ResolveAll(segs, q.refs[1..]), ToldAll(q.mem));
  }

  /** What a read of the front reference gives, unless it fails. */
  lemma ReadFront(q: Queue)
    requires Awake(q) && q.refs != []
    requires Inv(q)
    ensures var r := q.refs[0]; var (d, res) := ReadItem(q.store.value, r.segment, r.offset);
            var x := Resolve(q.store.value.segs, r);
            && d.segs == q.store.value.segs && SameAir(q.store.value, d) && x.id == r.id && Told(x) == x
            && (res == Unreadable || (res.Read? && res.item.id == r.id && res.item.(attempts := r.attempts) == x))
            && (res == Unreadable <==> q.store.value.io(q.store.value.tick).readFails)
  {
    hide Inv, ReadAt, SegmentBytes;
    var r := q.refs[0];
    var segs := q.store.value.segs;
    assert LiveRef(q, r);
    var i := LiveSpot(q, r);
    ResolveSpot(segs, r, i);
    ToldTwice(Records(segs, r.segment)[i].item);
    hide Spot;
    assert Records(segs, r.segment) == segs[r.segment].value by { LiveReadable(q, r); }
  }

  /** The item at the front reference. */
  ghost function Front(q: Queue): Item
    requires q.store.Some? && q.refs != []
  {
    Resolve(q.store.value.segs, q.refs[0])
  }

  lemma PullRefThins(q: Queue)
    requires Awake(q) && q.refs != []
    requires Inv(q)
    ensures var (q', pull) := PullRef(q);
            && Awake(q') && !pull.Stopped?
            && (pull.Got? ==> Contents(q) == [Told(pull.item)] + Contents(q'))
            && (pull.Skipped? ==> Front(q).id in q'.led.dropped && Contents(q) == [Front(q)] + Contents(q'))
  {
    hide Inv, ReadItem, DropUnreadable, Contents, Resolve;
    var r := q.refs[0];
    ReadFront(q);
    var (d, res) := ReadItem(q.store.value, r.segment, r.offset);
    FirstResolved(q, d);
    InvSpots(q);
    SpotRest(q.store.value.segs, q.refs);
    var q1 := q.(store := Some(d), refs := q.refs[1..], diskCount := q.diskCount - 1);
    DropUnreadableContents(q1, r);
    if res.Read? {
      ContentsSame(PullRef(q).0, q1);
    } else {
      assert PullRef(q) == (DropUnreadable(q1, r), Skipped);
    }
  }

  ghost function Gotten(got: Option<Item>): seq<Item> {
    if got.Some? then [Told(got.value)] else []
  }

  lemma {:induction false} DequeueOneThins(q: Queue)
    requires Awake(q)
    requires Inv(q)
    ensures var (q', got) := DequeueOne(q);
            && Awake(q') && Inv(q') && q.led.dropped <= q'.led.dropped
            && Thin(Contents(q), Gotten(got) + Contents(q'), q'.led.dropped)
            && (got.None? ==> Contents(q') == [])
    decreases |q.refs|
  {
    hide Inv, PullRef, Contents, Thin;
    var (q', got) := DequeueOne(q);
    DequeueOnePath(q);
    PathGrows(q, q');
    if q.refs != [] {
      PullRefThins(q);
      var (q1, pull) := PullRef(q);
      PullShrinks(q);
      if pull.Got? {
        ThinSame(Contents(q), q'.led.dropped);
      } else {
        PullRefPath(q);
        PathGrows(q, q1);
        DequeueOneThins(q1);
        ThinFirst(Front(q), Contents(q1), q'.led.dropped);
        ThinTwice(Contents(q), Contents(q1), Gotten(got) + Contents(q'), q'.led.dropped);
      }
    } else {
      ThinSame(Contents(q), q'.led.dropped);
      FromMemory(q);
    }
  }

  lemma FromMemory(q: Queue)
    requires q.store.Some? && q.refs == []
    ensures var (q', got) := DequeueOne(q);
            && q'.store == q.store && q'.closed == q.closed && Contents(q) == Gotten(got) + Contents(q')
            && (got.None? ==> Contents(q') == [])
  {
    hide PullRef, Resolve, Told;
    var (q', got) := DequeueOne(q);
    var none := ResolveAll(q.store.value.segs, q.refs);
    assert none == [] && none + ToldAll(q.mem) == ToldAll(q.mem);
    if q.mem != [] {
      hide ToldAll, ResolveAll;
      ToldHead(q.mem);
      assert none + ToldAll(q'.mem) == ToldAll(q'.mem);
    }
  }

  lemma {:induction false} PullBatchThins(q: Queue, n: nat, checks: nat, batch: seq<Item>)
    requires Awake(q)
    requires Inv(q)
    ensures var (q', got) := PullBatch(q, n, checks, batch);
            && Awake(q') && Inv(q') && q.led.dropped <= q'.led.dropped
            && Thin(ToldAll(batch) + Contents(q), ToldAll(got) + Contents(q'), q'.led.dropped)
            && (checks > n - |batch| ==> |got| >= n || Contents(q') == [])
    decreases checks
  {
    hide Inv, Contents, DequeueOne, ToldAll, Thin;
    if |batch| >= n || checks == 0 {
      ThinSame(ToldAll(batch) + Contents(q), q.led.dropped);
    } else {
      DequeueOneThins(q);
      var (q1, got) := DequeueOne(q);
      var (q', all) := PullBatch(q, n, checks, batch);
      ThinAfter(ToldAll(batch), Contents(q), Gotten(got) + Contents(q1), q1.led.dropped);
      if got.Some? {
        var batch1 := batch + [got.value];
        ToldSnoc(batch, got.value);
        Assoc(ToldAll(batch), Gotten(got), Contents(q1));
        PullBatchThins(q1, n, checks - 1, batch1);
        ThinMore(ToldAll(batch) + Contents(q), ToldAll(batch1) + Contents(q1), q1.led.dropped, q'.led.dropped);
        ThinTwice(ToldAll(batch) + Contents(q), ToldAll(batch1) + Contents(q1), ToldAll(all) + Contents(q'),
                  q'.led.dropped);
      } else {
        assert [] + Contents(q1) == Contents(q1);
      }
    }
  }

  /** A dequeue hands out the front of the sequence without the records it could not read, which it
      dropped, and leaves the rest. With looks at the context to spare it goes on past them until it
      has n items or nothing is left. */
  lemma DequeueThins(q: Queue, n: int, checks: nat, now: int)
    requires Awake(q)
    requires Inv(q)
    ensures var (q', res) := Dequeue(q, n, checks, now);
            && Awake(q') && q.led.dropped <= q'.led.dropped
            && Thin(Contents(q), ToldAll(Pulled(res)) + Contents(q'), q'.led.dropped)
            && (n > 0 && checks > n + 1 ==> |Pulled(res)| == n || Contents(q') == [])
  {
    hide Inv, Contents, PullBatch, Compact, Register, ToldAll, Thin;
    NoneTold();
    assert [] + Contents(q) == Contents(q);
    if n > 0 && checks > 1 {
      PullBatchThins(q, n, checks - 1, []);
      PullBatchHands(q, n, checks - 1, []);
      var (q1, batch) := PullBatch(q, n, checks - 1, []);
      CompactContents(q1);
      var q2 := Compact(q1);
      CompactPath(q1);
      PathGrows(q1, q2);
      RegisterFrame(q2, now);
      RegisterPath(q2, now);
      PathGrows(q2, Register(q2, now));
      ContentsSame(Register(q2, now), q2);
      var q' := Dequeue(q, n, checks, now).0;
      ThinMore(Contents(q), ToldAll(batch) + Contents(q1), q1.led.dropped, q'.led.dropped);
    } else {
      ThinSame(Contents(q), q.led.dropped);
    }
  }

  // ---- Whole runs ----

  lemma OrderlyThins(q: Queue, op: Op)
    requires Orderly(q, op) && Allowed(q, op) && Awake(q)
    requires Good(q)
    ensures Good(Do(q, op)) && Awake(Do(q, op)) && q.led.dropped <= Do(q, op).led.dropped
    ensures Thin(Contents(q) + ToldAll(Arrives(q, op)), ToldAll(HandsOut(q, op)) + Contents(Do(q, op)),
                 Do(q, op).led.dropped)
  {
    hide Inv, Booted, Contents, Enqueue, Dequeue, Ack, Drop, Recover, Start, Nack, Close, ToldAll, Thin;
    var q' := Do(q, op);
    OrderlyGrows(q, op);
    NoneTold();
    assert Contents(q) + [] == Contents(q) == [] + Contents(q);
    match op {
      case DoEnqueue(item) =>
        EnqueueContents(q, item);
        ToldSnoc([], item);
        assert [] + [item] == [item] && [] + [Told(item)] == [Told(item)];
        assert [] + Contents(q') == Contents(q');
        ThinSame(Contents(q'), q'.led.dropped);
      case DoDequeue(n, checks, now) =>
        DequeueThins(q, n, checks, now);
      case DoAck(ids) =>
        AckContents(q, ids);
        ThinSame(Contents(q), q'.led.dropped);
      case DoDrop(ids) =>
        DropContents(q, ids);
        ThinSame(Contents(q), q'.led.dropped);
    }
  }

  lemma OrderlyGrows(q: Queue, op: Op)
    requires Orderly(q, op) && Allowed(q, op) && q.store.Some?
    requires Good(q)
    ensures Good(Do(q, op)) && q.led.dropped <= Do(q, op).led.dropped
  {
    hide Inv, Booted, Do, Path, Allowed, Recover, Enqueue;
    DoGood(q, op);
    PathGrows(q, Do(q, op));
  }

  /** Over any orderly run, with any reads failing: what was queued and what arrived are, in order and
      less only items that were dropped, what was handed out and what is still queued. */
  lemma {:induction false} ThinningLaw(q: Queue, ops: seq<Op>, q2: Queue, arrived: seq<Item>, handed: seq<Item>)
    requires OrderlyRun(q, ops, q2, arrived, handed) && Awake(q)
    requires Good(q)
    ensures Good(q2) && Awake(q2) && q.led.dropped <= q2.led.dropped
    ensures Thin(Contents(q) + ToldAll(arrived), ToldAll(handed) + Contents(q2), q2.led.dropped)
    decreases |ops|
  {
    hide Good, Contents, Orderly, ToldAll, Arrives, HandsOut, Do, Allowed, Thin;
    if ops == [] {
      NoneTold();
      assert Contents(q) + [] == [] + Contents(q);
      ThinSame(Contents(q) + [], q.led.dropped);
    } else {
      var op := ops[0];
      var a, h := Arrives(q, op), HandsOut(q, op);
      OrderlyAllowed(q, op);
      var q1 := Do(q, op);
      OrderlyThins(q, op);
      var late, rest := arrived[|a|..], handed[|h|..];
      assert arrived == a + late && handed == h + rest;
      ThinningLaw(q1, ops[1..], q2, late, rest);
      ToldSplit(arrived, |a|);
      ToldSplit(handed, |h|);
      RunThins(Contents(q), ToldAll(a), ToldAll(late), ToldAll(h), ToldAll(rest), Contents(q1), Contents(q2),
               q1.led.dropped, q2.led.dropped);
    }
  }

  /** One step's thinning and the rest of the run's, put together. */
  lemma RunThins(c: seq<Item>, a: seq<Item>, late: seq<Item>, h: seq<Item>, rest: seq<Item>, c1: seq<Item>,
                 c2: seq<Item>, gone: set<Id>, more: set<Id>)
    requires Thin(c + a, h + c1, gone) && Thin(c1 + late, rest + c2, more) && gone <= more
    ensures Thin(c + (a + late), h + rest + c2, more)
  {
    hide Thin;
    ThinMore(c + a, h + c1, gone, more);
    ThinBefore(c + a, h + c1, late, more);
    ThinAfter(h, c1 + late, rest + c2, more);
    Assoc(c, a, late);
    Assoc(h, c1, late);
    Assoc(h, rest, c2);
    ThinTwice(c + a + late, h + c1 + late, h + (rest + c2), more);
  }
}
