/** The order a whole turn of the drain leaves: the batch, its failed send, the acks after it, and an
    ack that cannot be recorded. */
module TurnOrder {
  import opened Bytes
  import opened WalCodec
  import opened Wal
  import opened QueueModel
  import opened QueueInvariant
  import opened QueueRuns
  import opened QueueTheorems
  import opened QueueCrashes
  import opened QueueFifo
  import opened Flight
  import opened Drain
  import opened DrainLoop
  import opened DrainOrder
  import opened QueueFlows
  import opened QueueSettling

  // ---- A settlement that has to go by hand ----

  lemma {:induction false} GoneTakenBack(q: Queue, ids: seq<Id>, j: nat, kind: NackKind)
    requires j <= |ids| && forall i | 0 <= i < j :: ids[i] !in q.inflight
    ensures TakeBackAll(q, ids, kind) == TakeBackAll(q, ids[j..], kind)
    decreases j
  {
    if j == 0 {
      assert ids[0..] == ids;
    } else {
      assert TakeBack(q, ids[0], kind) == q;
      assert forall i | 0 <= i < j - 1 :: ids[1..][i] == ids[i + 1];
      GoneTakenBack(q, ids[1..], j - 1, kind);
      assert ids[1..][j - 1..] == ids[j..];
    }
  }

  /** Handing back ids of which the first j are gone already is handing back the others. */
  lemma GoneNacked(q: Queue, ids: seq<Id>, j: nat, kind: NackKind)
    requires j <= |ids| && forall i | 0 <= i < j :: ids[i] !in q.inflight
    ensures Nack(q, ids, kind) == Nack(q, ids[j..], kind)
  {
    hide TakeBackAll, ReturnRefs, ReturnItems, Compact;
    GoneTakenBack(q, ids, j, kind);
  }

  lemma RefIdsFrom(rs: seq<DiskRef>, j: nat)
    requires j <= |rs|
    ensures RefIds(rs)[j..] == RefIds(rs[j..])
  {
  }

  lemma OutAsStill(q: Queue, q1: Queue, rs: seq<DiskRef>, j: nat, ids: seq<Id>)
    requires OutAs(q, rs) && j <= |rs| && SameFlight(q, q1, ids)
    requires forall i | j <= i < |rs| :: rs[i].id !in ids
    ensures OutAs(q1, rs[j..])
  {
    forall i | 0 <= i < |rs[j..]| ensures FliesAs(q1.inflight, rs[j..][i]) {
      assert FliesAs(q.inflight, rs[j + i]);
    }
  }

  lemma DoGrows(q: Queue, op: Op)
    requires Allowed(q, op) && !op.DoRestart? && q.store.Some?
    requires Good(q)
    ensures Good(Do(q, op)) && Do(q, op).store.Some? && q.led.acked <= Do(q, op).led.acked
  {
    hide Do, Allowed, Inv, Booted, Runs, Lasts;
    DoGood(q, op);
    var steps :| Runs(q, steps, Do(q, op)) && SameLife(steps);
    RunLasts(q, steps, Do(q, op));
    LastsGrows(q, Do(q, op));
  }

  lemma LastsGrows(q: Queue, q': Queue)
    requires Lasts(q, q')
    ensures q'.store.Some? && q.led.acked <= q'.led.acked
  {
  }

  /** What the settlement by hand leaves: the deliveries not acked, first j gone, are ahead of the
      queue in their order, charged. */
  lemma ByHandOrder(q: Queue, rs: seq<DiskRef>, terminal: seq<Id>, j: nat)
    requires j <= |rs| && !q.closed && OutAs(q, rs[j..]) && q.store.Some?
    requires forall i | 0 <= i < j :: rs[i].id !in q.inflight
    requires Good(q)
    ensures var q' := ByHand(q, RefIds(rs), terminal);
            q'.refs == Kept(rs[j..], 1) + q.refs && q.led.acked <= q'.led.acked && Flows(q, q')
  {
    hide Nack, Drop, OutAs, Inv, Booted, Kept, Flows, Faults, OnDisk;
    var ids := RefIds(rs);
    var q1 := if ids == [] then q else Nack(q, ids, NackDelivered).0;
    RefIdsFrom(rs, j);
    GoneNacked(q, ids, j, NackDelivered);
    NackRefs(q, rs[j..], NackDelivered);
    if ids == [] {
      assert Kept(rs[j..], 1) + q.refs == q.refs by { KeptNone(rs[j..], q.refs); }
    } else {
      DoGrows(q, DoNack(ids, NackDelivered));
    }
    NackFlows(q, ids, NackDelivered);
    FlowsSame(q, q);
    assert !q1.closed by { NackFlight(q, ids, NackDelivered); }
    DropLaw(q1, terminal);
    FlowsTwice(q, q1, Drop(q1, terminal).0);
    DoGrows(q1, DoDrop(terminal));
  }

  lemma KeptNone(rs: seq<DiskRef>, refs: seq<DiskRef>)
    requires rs == []
    ensures Kept(rs, 1) + refs == refs
  {
  }

  // ---- The settlement ----

  /** What settling sent references leaves: the first j acked, the others back in front. */
  ghost predicate SettledOrder(q: Queue, q': Queue, rs: seq<DiskRef>, j: nat) {
    && j <= |rs| && q'.refs == Kept(rs[j..], 1) + q.refs
    && forall i | 0 <= i < j :: rs[i].id in q'.led.acked
  }

  /** Acks tried so far: which of the sent references are gone, and what became of them. */
  lemma AckedRefs(q: Queue, q1: Queue, rs: seq<DiskRef>, terminal: seq<Id>, j: nat)
    requires OutAs(q, rs) && AckedFirst(q, q1, RefIds(rs) + terminal, j)
    ensures var k := if j < |rs| then j else |rs|;
            && OutAs(q1, rs[k..]) && (forall i | 0 <= i < k :: rs[i].id !in q1.inflight && rs[i].id in q1.led.acked)
  {
    hide SameFlight;
    var ids := RefIds(rs) + terminal;
    var k := if j < |rs| then j else |rs|;
    forall i | 0 <= i < k ensures rs[i].id !in q1.inflight && rs[i].id in q1.led.acked {
      assert ids[i] == rs[i].id && FliesAs(q.inflight, rs[i]) && AckedOne(q, q1, ids[i]);
    }
    forall i | k <= i < |rs| ensures rs[i].id !in ids[..j] {
      assert forall h | 0 <= h < j :: ids[h] == rs[h].id;
    }
    OutAsStill(q, q1, rs, k, ids[..j]);
  }

  /** All of the ids that were in flight are acked. */
  ghost predicate AllSettled(q: Queue, q': Queue, ids: seq<Id>) {
    forall id | id in ids && id in q.inflight :: id in q'.led.acked
  }

  /** What a settlement by acks leaves: everything acked and the loop going on unless the session ends,
      or a write failed. */
  ghost predicate SettledWell(q: Queue, q': Queue, rs: seq<DiskRef>, terminal: seq<Id>, j: nat, at: Place, ending: bool)
  {
    && SettledOrder(q, q', rs, j) && Flows(q, q') && (at.Looping? ==> j == |rs|)
    && (Faults(q, q') || (j == |rs| && AllSettled(q, q', terminal) && (at.Looping? <==> !ending)))
  }

  /** The settlement of sent and terminal ids, alone at the queue. */
  lemma AckingOrder(q: Queue, rs: seq<DiskRef>, terminal: seq<Id>, ending: bool) returns (j: nat)
    requires !q.closed && q.store.Some? && OutAs(q, rs)
    requires Good(q)
    ensures var (q', at) := Finish(q, Acking(RefIds(rs), terminal, 0, ending));
            SettledWell(q, q', rs, terminal, j, at, ending)
  {
    hide Ack, Finish, OutAs, Inv, Booted, AckedFirst, ByHand, RefIds, Flows, Faults, SettledOrder, AllSettled;
    var sent := RefIds(rs);
    var ids := sent + terminal;
    FlowsSame(q, q);
    if ids == [] {
      j := |rs|;
      FinishNothing(q, sent, terminal, ending);
      NothingSent(q, rs);
      NothingOwed(q, terminal);
    } else {
      var j1 := AckLaw(q, ids);
      FinishAcking(q, sent, terminal, 0, ending);
      DoGrows(q, DoAck(ids));
      var (q1, res1) := Ack(q, ids);
      if res1.Error? {
        assert !q1.closed by { StaysOpen(q, q1, ids, j1); }
        var j2 := AckLaw(q1, ids);
        FinishAcking(q1, sent, terminal, 1, ending);
        DoGrows(q1, DoAck(ids));
        var (q2, res2) := Ack(q1, ids);
        FlowsTwice(q, q1, q2);
        AckedTwice(q, q1, q2, ids, j1, j2);
        var top := if j1 > j2 then j1 else j2;
        assert j1 <= |ids| && j2 <= |ids| by {
          FirstBound(q, q1, ids, j1);
          FirstBound(q1, q2, ids, j2);
        }
        if res2.Error? {
          FinishByHand(q2, sent, terminal, 2, ending);
          j := HandOrder(q, q2, rs, terminal, top);
        } else {
          j := AllAcked(q, q2, rs, terminal, top);
        }
      } else {
        j := AllAcked(q, q1, rs, terminal, j1);
      }
    }
  }

  lemma NothingSent(q: Queue, rs: seq<DiskRef>)
    requires RefIds(rs) == []
    ensures SettledOrder(q, q, rs, |rs|)
  {
    assert |RefIds(rs)| == |rs|;
    KeptNone(rs[|rs|..], q.refs);
  }

  lemma NothingOwed(q: Queue, ids: seq<Id>)
    requires ids == []
    ensures AllSettled(q, q, ids)
  {
  }

  lemma StaysOpen(q: Queue, q1: Queue, ids: seq<Id>, j: nat)
    requires AckedFirst(q, q1, ids, j) && !q.closed
    ensures !q1.closed
  {
  }

  lemma AllAcked(q: Queue, q1: Queue, rs: seq<DiskRef>, terminal: seq<Id>, j: nat) returns (k: nat)
    requires OutAs(q, rs) && AckedFirst(q, q1, RefIds(rs) + terminal, j) && j == |RefIds(rs) + terminal|
    ensures SettledOrder(q, q1, rs, k) && k == |rs| && AllSettled(q, q1, terminal)
  {
    hide OutAs;
    k := |rs|;
    AckedRefs(q, q1, rs, terminal, j);
    KeptNone(rs[k..], q.refs);
    var ids := RefIds(rs) + terminal;
    forall id | id in terminal && id in q.inflight ensures id in q1.led.acked {
      var i :| 0 <= i < |terminal| && terminal[i] == id;
      assert ids[|rs| + i] == id && AckedOne(q, q1, ids[|rs| + i]);
    }
  }

  lemma HandOrder(q: Queue, q2: Queue, rs: seq<DiskRef>, terminal: seq<Id>, j: nat) returns (k: nat)
    requires OutAs(q, rs) && AckedFirst(q, q2, RefIds(rs) + terminal, j) && !q.closed && q2.store.Some?
    requires Good(q2) && Flows(q, q2) && Faults(q, q2)
    ensures var q' := ByHand(q2, RefIds(rs), terminal); SettledOrder(q, q', rs, k) && Flows(q, q') && Faults(q, q')
  {
    hide OutAs, Inv, Booted, ByHand, SameFlight, Flows, Faults;
    k := if j < |rs| then j else |rs|;
    AckedRefs(q, q2, rs, terminal, j);
    ByHandOrder(q2, rs, terminal, k);
    FlowsTwice(q, q2, ByHand(q2, RefIds(rs), terminal));
  }

  // ---- The walk ----

  /** The references among the first k whose send went out. */
  ghost function SentOf(refs: seq<DiskRef>, says: nat -> Verdict, k: nat): seq<DiskRef>
    requires k <= |refs|
  {
    if k == 0 then [] else SentOf(refs, says, k - 1) + if says(k - 1).Sends? then [refs[k - 1]] else []
  }

  lemma RefIdsSnoc(rs: seq<DiskRef>, r: DiskRef)
    ensures RefIds(rs + [r]) == RefIds(rs) + [r.id]
  {
  }

  /** Where the walk stopped: at the failed send, or at the end. */
  ghost function Stop(w: Walked, n: nat): nat {
    if w.failed.Some? then w.failed.value else n
  }

  lemma {:induction false} WalkSends(items: seq<Item>, refs: seq<DiskRef>, says: nat -> Verdict, i: nat,
                                     terminal: seq<Id>)
    requires i <= |items| <= |refs| && forall h | 0 <= h < |items| :: items[h].id == refs[h].id
    ensures var w := Walk(items, says, i, RefIds(SentOf(refs, says, i)), terminal);
            Stop(w, |items|) <= |items| && w.sent == RefIds(SentOf(refs, says, Stop(w, |items|)))
    decreases |items| - i
  {
    hide RefIds;
    if i < |items| {
      match says(i)
      case Undeliverable =>
        assert SentOf(refs, says, i) + [] == SentOf(refs, says, i);
        WalkSends(items, refs, says, i + 1, terminal + [items[i].id]);
      case Sends =>
        RefIdsSnoc(SentOf(refs, says, i), refs[i]);
        WalkSends(items, refs, says, i + 1, terminal);
      case Fails =>
    }
  }

  /** The walk stops at the first failed send, and everything undeliverable before it is terminal. */
  lemma {:induction false} WalkStops(items: seq<Item>, says: nat -> Verdict, i: nat, sent: seq<Id>, terminal: seq<Id>)
    requires i <= |items|
    ensures var w := Walk(items, says, i, sent, terminal); var k := Stop(w, |items|);
            && i <= k <= |items| && (w.failed.Some? <==> k < |items|) && (k < |items| ==> says(k).Fails?)
            && (forall h | i <= h < k :: !says(h).Fails?)
            && (forall h | i <= h < k && says(h).Undeliverable? :: items[h].id in w.terminal)
            && (forall id | id in terminal :: id in w.terminal)
    decreases |items| - i
  {
    if i < |items| {
      match says(i)
      case Undeliverable => WalkStops(items, says, i + 1, sent, terminal + [items[i].id]);
      case Sends => WalkStops(items, says, i + 1, sent + [items[i].id], terminal);
      case Fails =>
    }
  }

  /** They come from the references before k, each of them once. */
  lemma {:induction false} SentFly(q: Queue, refs: seq<DiskRef>, says: nat -> Verdict, k: nat)
    requires k <= |refs| && OutAs(q, refs)
    ensures OutAs(q, SentOf(refs, says, k))
    ensures forall r | r in SentOf(refs, says, k) :: exists h | 0 <= h < k :: refs[h] == r
  {
    if k > 0 {
      SentFly(q, refs, says, k - 1);
      var before := SentOf(refs, says, k - 1);
      forall i | 0 <= i < |before| ensures before[i].id != refs[k - 1].id {
        assert before[i] in before;
        var h :| 0 <= h < k - 1 && refs[h] == before[i];
      }
      assert FliesAs(q.inflight, refs[k - 1]);
    }
  }

  // ---- The turn ----

  /** What a turn that stopped at k owes its own settlement: nothing under delivery acks. */
  ghost function Mine(refs: seq<DiskRef>, says: nat -> Verdict, k: nat, acks: bool): seq<DiskRef>
    requires k <= |refs|
  {
    if acks then [] else SentOf(refs, says, k)
  }

  /** What the failed send at k puts back ahead of the queue: the failed one, charged, then the untried. */
  ghost function FromFailed(refs: seq<DiskRef>, k: nat): seq<DiskRef>
    requires k <= |refs|
  {
    if k == |refs| then [] else KeptOne(refs[k], 1) + Kept(refs[k + 1..], 0)
  }

  /** What a turn that stopped at k leaves: j of the sent ones acked, the others back in front and
      charged, then the failed one and the untried in their order, then the queue. Unless a write
      failed, all of them are acked, the undeliverable ones too, and the loop goes on unless a send
      failed. */
  ghost predicate TurnLeaves(q: Queue, q': Queue, at: Place, rs: seq<DiskRef>, says: nat -> Verdict, acks: bool, k: nat,
                             j: nat)
  {
    && k <= |rs| && var mine := Mine(rs, says, k, acks);
    && (k < |rs| ==> says(k).Fails?) && (forall i | 0 <= i < k :: !says(i).Fails?)
    && j <= |mine| && q'.refs == Kept(mine[j..], 1) + (FromFailed(rs, k) + q.refs)
    && (forall i | 0 <= i < j :: mine[i].id in q'.led.acked)
    && Flows(q, q') && (at.Looping? ==> j == |mine| && k == |rs|)
    && (Faults(q, q') ||
        (&& j == |mine| && (at.Looping? <==> k == |rs|)
         && forall i | 0 <= i < k && says(i).Undeliverable? :: rs[i].id in q'.led.acked))
  }

  /** The settlement after the walk, from the batch in flight. */
  lemma BatchOrder(q: Queue, items: seq<Item>, rs: seq<DiskRef>, acks: bool, says: nat -> Verdict)
    returns (k: nat, j: nat)
    requires !q.closed && q.store.Some? && OutAs(q, rs) && |items| == |rs|
    requires forall i | 0 <= i < |rs| :: items[i].id == rs[i].id
    requires Good(q)
    ensures var (q', at) := BatchTurn(q, items, acks, says); TurnLeaves(q, q', at, rs, says, acks, k, j)
  {
    hide OutAs, Inv, Booted, Finish, Walk, Kept, KeptOne, RefIds, Nack, Flows, Faults, AllSettled;
    var w := Walk(items, says, 0, [], []);
    assert RefIds(SentOf(rs, says, 0)) == [] by { NoRefIds(); }
    WalkSends(items, rs, says, 0, []);
    WalkStops(items, says, 0, [], []);
    k := Stop(w, |items|);
    SentFly(q, rs, says, k);
    var mine := Mine(rs, says, k, acks);
    assert RefIds([]) == [] && OutAs(q, []) by { NoRefIds(); NoneOut(q); }
    if w.failed.Some? {
      j := FailedOrder(q, items, rs, acks, says, k, w.terminal);
    } else {
      WalkedTurn(q, items, acks, says, w.sent, w.terminal);
      j := AckingOrder(q, mine, w.terminal, false);
      assert [] + q.refs == q.refs;
      var q' := BatchTurn(q, items, acks, says).0;
      if AllSettled(q, q', w.terminal) {
        TerminalAcked(q, q, q', items, rs, says, k, w.terminal);
      }
    }
  }

  /** The terminal ones among the first k are acked, if they were still in flight when it came to it. */
  lemma TerminalAcked(q: Queue, q1: Queue, q': Queue, items: seq<Item>, rs: seq<DiskRef>, says: nat -> Verdict, k: nat,
                      terminal: seq<Id>)
    requires k <= |items| == |rs| && OutAs(q, rs) && AllSettled(q1, q', terminal)
    requires forall i | 0 <= i < |rs| :: items[i].id == rs[i].id
    requires forall h | 0 <= h < k && says(h).Undeliverable? :: items[h].id in terminal
    requires q1 == q || SameFlight(q, q1, RefIds(rs[k..]))
    ensures forall i | 0 <= i < k && says(i).Undeliverable? :: rs[i].id in q'.led.acked
  {
    forall i | 0 <= i < k && says(i).Undeliverable? ensures rs[i].id in q'.led.acked {
      assert FliesAs(q.inflight, rs[i]);
      if q1 != q {
        forall g | 0 <= g < |rs| - k ensures RefIds(rs[k..])[g] != rs[i].id {
          assert rs[i].id != rs[k + g].id;
        }
      }
      assert rs[i].id in q1.inflight;
    }
  }

  lemma NoRefIds()
    ensures RefIds([]) == []
  {
  }

  lemma NoneOut(q: Queue)
    ensures OutAs(q, [])
  {
  }

  lemma FailedOrder(q: Queue, items: seq<Item>, rs: seq<DiskRef>, acks: bool, says: nat -> Verdict, k: nat,
                    terminal: seq<Id>)
    returns (j: nat)
    requires !q.closed && q.store.Some? && OutAs(q, rs) && |items| == |rs| && k < |rs|
    requires forall i | 0 <= i < |rs| :: items[i].id == rs[i].id
    requires Walk(items, says, 0, [], []) == Walked(RefIds(SentOf(rs, says, k)), terminal, Some(k))
    requires says(k).Fails? && forall h | 0 <= h < k :: !says(h).Fails?
    requires forall h | 0 <= h < k && says(h).Undeliverable? :: items[h].id in terminal
    requires Good(q)
    ensures var (q', at) := BatchTurn(q, items, acks, says); TurnLeaves(q, q', at, rs, says, acks, k, j)
  {
    hide OutAs, Inv, Booted, Finish, Walk, Kept, KeptOne, RefIds, Nack, SettleStep, Flows, Faults, AllSettled,
         SameFlight;
    var mine := Mine(rs, says, k, acks);
    var untried, failed := RefIds(rs[k + 1..]), rs[k].id;
    var q2 := AfterFailure(q, untried, failed);
    assert RefIds([]) == [] by { NoRefIds(); }
    IdSeqIs(items, rs, k + 1);
    FailedTurn(q, items, acks, says, k, RefIds(SentOf(rs, says, k)), terminal);
    FinishFailure(q, untried, failed, RefIds(mine), terminal);
    assert q.handRefs == [] && q.handItems == [];
    FromPoison(rs, k, |rs|);
    assert rs[k..|rs|] == rs[k..] && rs[k + 1..|rs|] == rs[k + 1..];
    OutAsPart(q, rs, k);
    FailureOrder(q, rs[k..]);
    FailureGood(q, untried, failed);
    MineStillOut(q, q2, rs, says, k, acks);
    j := AckingOrder(q2, mine, terminal, true);
    var q' := BatchTurn(q, items, acks, says).0;
    FlowsTwice(q, q2, q');
    if AllSettled(q2, q', terminal) {
      TerminalAcked(q, q2, q', items, rs, says, k, terminal);
    }
    FinishEnds(q2, RefIds(mine), terminal);
  }

  lemma IdSeqIs(items: seq<Item>, rs: seq<DiskRef>, k: nat)
    requires k <= |items| == |rs| && forall i | 0 <= i < |rs| :: items[i].id == rs[i].id
    ensures IdSeq(items[k..]) == RefIds(rs[k..])
  {
  }

  /** The failed send's two hand-backs come first, then the acks. */
  lemma FinishFailure(q: Queue, untried: seq<Id>, failed: Id, sent: seq<Id>, terminal: seq<Id>)
    ensures Finish(q, Untried(untried, failed, sent, terminal))
            == Finish(AfterFailure(q, untried, failed), Acking(sent, terminal, 0, true))
  {
    hide Finish, Nack;
    FinishStep(q, Untried(untried, failed, sent, terminal));
    FinishStep(AfterUntried(q, untried), Failing(failed, sent, terminal));
  }

  lemma FailureGood(q: Queue, untried: seq<Id>, failed: Id)
    requires q.store.Some?
    requires Good(q)
    ensures Good(AfterFailure(q, untried, failed)) && AfterFailure(q, untried, failed).store.Some?
    ensures Flows(q, AfterFailure(q, untried, failed))
  {
    hide Inv, Booted, Nack, Flows;
    FlowsSame(q, q);
    NackFlows(q, untried, NackUntried);
    NackFlows(AfterUntried(q, untried), [failed], NackFailed);
    FlowsTwice(q, AfterUntried(q, untried), AfterFailure(q, untried, failed));
    if untried != [] {
      DoGrows(q, DoNack(untried, NackUntried));
    }
    DoGrows(AfterUntried(q, untried), DoNack([failed], NackFailed));
  }

  lemma MineStillOut(q: Queue, q2: Queue, rs: seq<DiskRef>, says: nat -> Verdict, k: nat, acks: bool)
    requires k < |rs| && OutAs(q, rs) && SameFlight(q, q2, RefIds(rs[k..]))
    ensures OutAs(q2, Mine(rs, says, k, acks))
  {
    hide SameFlight;
    SentFly(q, rs, says, k);
    var mine := Mine(rs, says, k, acks);
    forall i | 0 <= i < |mine| ensures mine[i].id !in RefIds(rs[k..]) {
      assert mine[i] in mine;
      var h :| 0 <= h < k && rs[h] == mine[i];
      forall g | 0 <= g < |rs| - k ensures RefIds(rs[k..])[g] != mine[i].id {
        assert rs[h].id != rs[k + g].id;
      }
    }
    OutAsStill(q, q2, mine, 0, RefIds(rs[k..]));
    assert mine[0..] == mine;
  }

  lemma FinishEnds(q: Queue, sent: seq<Id>, terminal: seq<Id>)
    ensures !Finish(q, Acking(sent, terminal, 0, true)).1.Looping?
  {
    hide Ack, Finish, ByHand;
    if sent + terminal == [] {
      FinishNothing(q, sent, terminal, true);
    } else {
      FinishAcking(q, sent, terminal, 0, true);
      var (q1, res) := Ack(q, sent + terminal);
      if res.Error? {
        FinishAcking(q1, sent, terminal, 1, true);
        var (q2, res2) := Ack(q1, sent + terminal);
        if res2.Error? {
          FinishByHand(q2, sent, terminal, 2, true);
        }
      }
    }
  }

  /** The order a whole turn leaves, alone at the queue, for a batch taken from disk however its
      context cut it, and whichever writes fail. The walk stops at k, the first send that fails; of
      what the turn sent before it, j are acked and the others are back in front, charged; then come
      the failed item, charged, and the untried ones, each in batch order; then the rest of the queue.
      Unless a write failed, everything sent and everything undeliverable is acked. */
  lemma TurnOrderLaw(q: Queue, n: nat, acks: bool, checks: nat, now: int, says: nat -> Verdict)
    returns (k: nat, j: nat)
    requires Calm(q) && Good(q) && FromDisk(q, Dequeue(q, n, checks, now).1)
    ensures var (q1, res) := Dequeue(q, n, checks, now); var m := |res.items|;
            var (q', at) := Turn(q, n, acks, checks, now, says);
            && m <= |q.refs| && q1.refs == q.refs[m..] && Flows(q, q')
            && TurnLeaves(q1, q', at, q.refs[..m], says, acks, k, j)
            && (Faults(q1, q') ==> Faults(q, q'))
  {
    hide Inv, Booted, Dequeue, Walk, OutAs, BatchTurn, Turn, Flows, Faults, TurnLeaves;
    var (q1, res) := Dequeue(q, n, checks, now);
    DequeueRefs(q, n, checks, now);
    PulledTurn(q, n, acks, checks, now, says);
    assert q.store.Some?;
    DoGrows(q, DoDequeue(n, checks, now));
    k, j := BatchOrder(q1, res.items, q.refs[..|res.items|], acks, says);
    var (q', at) := Turn(q, n, acks, checks, now, says);
    DequeueFlows(q, n, checks, now);
    assert Flows(q1, q') by { LeavesFlows(q1, q', at, q.refs[..|res.items|], says, acks, k, j); }
    FlowsTwice(q, q1, q');
  }

  lemma LeavesFlows(q: Queue, q': Queue, at: Place, rs: seq<DiskRef>, says: nat -> Verdict, acks: bool, k: nat, j: nat)
    requires TurnLeaves(q, q', at, rs, says, acks, k, j)
    ensures Flows(q, q')
  {
  }
}
