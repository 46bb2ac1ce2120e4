/** The drain loop of a session, its settlement of a batch and the session-end sweep, interleaved
    with every other caller of the queue. */
module Drain {
  import opened Bytes
  import opened WalCodec
  import opened QueueModel
  import opened QueueTheorems
  import opened Flight

  const MAX_INFLIGHT_BATCHES := 2
  const MAX_ACK_ATTEMPTS := 2

  /** What the loop makes of one item: unparseable, disabled or too old; sent; or the send failed. */
  datatype Verdict = Undeliverable | Sends | Fails

  datatype Walked = Walked(sent: seq<Id>, terminal: seq<Id>, failed: Option<nat>)

  /** The walk over a batch from index i on: it stops at the first failed send. */
  function Walk(items: seq<Item>, says: nat -> Verdict, i: nat, sent: seq<Id>, terminal: seq<Id>): Walked
    requires i <= |items|
    decreases |items| - i
  {
    if i == |items| then Walked(sent, terminal, None) else
    match says(i)
    case Undeliverable => Walk(items, says, i + 1, sent, terminal + [items[i].id])
    case Sends => Walk(items, says, i + 1, sent + [items[i].id], terminal)
    case Fails => Walked(sent, terminal, Some(i))
  }

  function IdSeq(items: seq<Item>): (ids: seq<Id>)
    ensures |ids| == |items| && forall i | 0 <= i < |items| :: ids[i] == items[i].id
  {
    seq(|items|, i requires 0 <= i < |items| => items[i].id)
  }

  /** Where the drain goroutine stands. `sent` is what it will settle itself: nothing under delivery
      acks. `ending` says that the session ends after this settlement. */
  datatype Place =
    | Looping
    | Waiting(n: nat)
    | Clear(n: nat)
    | Untried(untried: seq<Id>, failed: Id, sent: seq<Id>, terminal: seq<Id>)
    | Failing(failed: Id, sent: seq<Id>, terminal: seq<Id>)
    | Acking(sent: seq<Id>, terminal: seq<Id>, tries: nat, ending: bool)
    | Delivered(sent: seq<Id>, terminal: seq<Id>)
    | Dropping(terminal: seq<Id>)
    | Ended
    | Sweeping(ids: seq<Id>)
    | Over

  datatype Session = Session(q: Queue, acks: bool, at: Place, sent: set<Id>)

  /** After the walk: the failed send's order of settlement, or the acks at once. */
  function Settlement(items: seq<Item>, w: Walked, acks: bool): Place
    requires w.failed.Some? ==> w.failed.value < |items|
  {
    var mine := if acks then [] else w.sent;
    if w.failed.Some? then
      var k := w.failed.value;
      Untried(IdSeq(items[k + 1..]), items[k].id, mine, w.terminal)
    else Acking(mine, w.terminal, 0, false)
  }

  /** The settlement's next call on the queue. */
  function SettleStep(q: Queue, at: Place): (Queue, Place)
    requires Settling(at)
  {
    match at
    case Untried(untried, failed, sent, terminal) =>
      (if untried == [] then q else Nack(q, untried, NackUntried).0, Failing(failed, sent, terminal))
    case Failing(failed, sent, terminal) => (Nack(q, [failed], NackFailed).0, Acking(sent, terminal, 0, true))
    case Acking(sent, terminal, tries, ending) =>
      if sent + terminal == [] then (q, if ending then Ended else Looping)
      else if tries >= MAX_ACK_ATTEMPTS then (q, Delivered(sent, terminal))
      else
        var (q1, res) := Ack(q, sent + terminal);
        (q1, match res
             case Done => if ending then Ended else Looping
             case Refused => Ended
             case Error => Acking(sent, terminal, tries + 1, ending))
    case Delivered(sent, terminal) =>
      (if sent == [] then q else Nack(q, sent, NackDelivered).0, Dropping(terminal))
    case Dropping(terminal) => (if terminal == [] then q else Drop(q, terminal).0, Ended)
  }

  predicate Settling(at: Place) {
    at.Untried? || at.Failing? || at.Acking? || at.Delivered? || at.Dropping?
  }

  function CallsLeft(at: Place): nat {
    match at
    case Untried(_, _, _, _) => 7
    case Failing(_, _, _) => 6
    case Acking(_, _, tries, _) => if tries < MAX_ACK_ATTEMPTS then 3 + MAX_ACK_ATTEMPTS - tries else 3
    case Delivered(_, _) => 2
    case Dropping(_) => 1
    case _ => 0
  }

  /** The whole settlement, with nobody else at the queue meanwhile. */
  function Finish(q: Queue, at: Place): (Queue, Place)
    decreases CallsLeft(at)
  {
    if !Settling(at) then (q, at) else
    var (q1, at1) := SettleStep(q, at);
    Finish(q1, at1)
  }

  datatype Event =
    | Other(op: Op)
    | Begin(n: nat)
    | Look
    | Leave
    | Pull(checks: nat, now: int, says: nat -> Verdict)
    | SettleNext
    | Collect(ids: seq<Id>)
    | Sweep
    | Reconnect(acks: bool)

  ghost predicate Can(s: Session, e: Event) {
    match e
    case Other(op) => Allowed(s.q, op) && !op.DoDequeue? && !op.DoRestart?
    case Begin(n) => s.at.Looping? && n > 0
    case Look => s.at.Waiting?
    case Leave => s.at.Looping? || s.at.Waiting?
    case Pull(_, _, _) => s.at.Clear?
    case SettleNext => Settling(s.at)
    case Collect(ids) => s.at.Ended? && s.acks && forall id :: id in ids <==> id in s.q.inflight
    case Sweep => s.at.Sweeping?
    case Reconnect(_) => s.at.Over? || (s.at.Ended? && !s.acks)
  }

  /** Room for a whole batch within the envelope. */
  predicate Room(q: Queue, n: nat) {
    |q.inflight| + n <= n * MAX_INFLIGHT_BATCHES
  }

  function AfterPull(s: Session, checks: nat, now: int, says: nat -> Verdict): Session
    requires s.at.Clear?
  {
    var (q, res) := Dequeue(s.q, s.at.n, checks, now);
    match res
    case Batch(items) =>
      WalkBounds(items, says, 0, [], []);
      var w := Walk(items, says, 0, [], []);
      Session(q, s.acks, Settlement(items, w, s.acks), s.sent + IdSet(w.sent))
    case Parked => s.(q := q)
    case Drained => s.(q := q, at := Looping)
    case _ => s.(q := q, at := Ended)
  }

  ghost function Next(s: Session, e: Event): Session
    requires Can(s, e)
  {
    match e
    case Other(op) => s.(q := Do(s.q, op))
    case Begin(n) => s.(at := if s.acks then Waiting(n) else Clear(n))
    case Look => if Room(s.q, s.at.n) then s.(at := Clear(s.at.n)) else s
    case Leave => s.(at := Ended)
    case Pull(checks, now, says) => AfterPull(s, checks, now, says)
    case SettleNext => var (q, at) := SettleStep(s.q, s.at); s.(q := q, at := at)
    case Collect(ids) => s.(at := Sweeping(ids))
    case Sweep => s.(q := if s.at.ids == [] then s.q else Nack(s.q, s.at.ids, NackSessionEnd).0, at := Over)
    case Reconnect(acks) => Session(s.q, acks, Looping, {})
  }

  lemma {:induction false} WalkBounds(items: seq<Item>, says: nat -> Verdict, i: nat, sent: seq<Id>, terminal: seq<Id>)
    requires i <= |items|
    ensures var w := Walk(items, says, i, sent, terminal);
            w.failed.Some? ==> i <= w.failed.value < |items|
    decreases |items| - i
  {
    if i < |items| {
      match says(i)
      case Undeliverable => WalkBounds(items, says, i + 1, sent, terminal + [items[i].id]);
      case Sends => WalkBounds(items, says, i + 1, sent + [items[i].id], terminal);
      case Fails =>
    }
  }

  function IdSet(ids: seq<Id>): set<Id> {
    set id | id in ids
  }

  /** What the walk leaves for the settlement covers the batch: sent, terminal, failed, untried. */
  lemma {:induction false} WalkCovers(items: seq<Item>, says: nat -> Verdict, i: nat, sent: seq<Id>, terminal: seq<Id>)
    requires i <= |items|
    ensures var w := Walk(items, says, i, sent, terminal);
            var rest := if w.failed.Some? then w.failed.value else |items|;
            && i <= rest <= |items|
            && IdSet(w.sent) + IdSet(w.terminal) == IdSet(sent) + IdSet(terminal) + Ids(items[i..rest])
            && (w.failed.Some? ==> w.failed.value < |items|)
    decreases |items| - i
  {
    hide Ids;
    var w := Walk(items, says, i, sent, terminal);
    if i == |items| {
      assert Ids(items[i..i]) == {} by { NoId(items[i..i]); }
    } else {
      match says(i)
      case Undeliverable =>
        WalkCovers(items, says, i + 1, sent, terminal + [items[i].id]);
        NextId(items, i, if w.failed.Some? then w.failed.value else |items|);
      case Sends =>
        WalkCovers(items, says, i + 1, sent + [items[i].id], terminal);
        NextId(items, i, if w.failed.Some? then w.failed.value else |items|);
      case Fails =>
        assert Ids(items[i..i]) == {} by { NoId(items[i..i]); }
    }
  }

  lemma NoId(items: seq<Item>)
    requires items == []
    ensures Ids(items) == {}
  {
  }

  lemma NextId(items: seq<Item>, i: nat, j: nat)
    requires i < j <= |items|
    ensures Ids(items[i..j]) == Ids(items[i + 1..j]) + {items[i].id}
  {
    assert items[i..j] == [items[i]] + items[i + 1..j];
  }

  // ---- The invariant ----

  /** The ids the settlement still has to deal with. */
  ghost function Owes(at: Place): set<Id> {
    match at
    case Untried(untried, failed, sent, terminal) => IdSet(untried) + {failed} + IdSet(sent) + IdSet(terminal)
    case Failing(failed, sent, terminal) => {failed} + IdSet(sent) + IdSet(terminal)
    case Acking(sent, terminal, _, _) => IdSet(sent) + IdSet(terminal)
    case Delivered(sent, terminal) => IdSet(sent) + IdSet(terminal)
    case Dropping(terminal) => IdSet(terminal)
    case _ => {}
  }

  /** What a session may leave in flight where it stands. */
  ghost function MayFly(s: Session): set<Id> {
    match s.at
    case Sweeping(ids) => IdSet(ids)
    case Over => {}
    case _ => Owes(s.at) + (if s.acks then s.sent else {})
  }

  /** Until the queue closes, nothing is in flight but what the settlement still owes and, under
      delivery acks, what this session has sent; and once room was seen it stays. */
  ghost predicate Safe(s: Session) {
    && Good(s.q)
    && (!s.q.closed ==> s.q.inflight.Keys <= MayFly(s))
    && (s.at.Clear? ==> s.at.n > 0)
    && (s.at.Waiting? ==> s.at.n > 0)
    && (s.at.Clear? && s.acks ==> |s.q.inflight| <= s.at.n)
  }

  lemma OtherSafe(s: Session, op: Op)
    requires Can(s, Other(op)) && Safe(s)
    ensures Safe(Next(s, Other(op)))
  {
    hide Good, Do, Allowed, Owes;
    DoKeeps(s.q, op);
    OthersShrinkFlight(s.q, op);
    FlightSize(Do(s.q, op), s.q);
  }

  /** Safe of the parts: the queue is good, and flies nothing but `may` until it closes. */
  ghost predicate Flies(q: Queue, may: set<Id>) {
    Good(q) && (!q.closed ==> q.inflight.Keys <= may)
  }

  lemma NackFlies(q: Queue, ids: seq<Id>, kind: NackKind, may: set<Id>)
    requires Flies(q, IdSet(ids) + may)
    ensures Flies(Nack(q, ids, kind).0, may)
  {
    hide Good, Nack;
    DoKeeps(q, DoNack(ids, kind));
    NackFlight(q, ids, kind);
  }

  lemma DropFlies(q: Queue, ids: seq<Id>, may: set<Id>)
    requires Flies(q, IdSet(ids) + may)
    ensures Flies(Drop(q, ids).0, may)
  {
    hide Good, Drop;
    DoKeeps(q, DoDrop(ids));
    DropFlight(q, ids);
  }

  lemma AckFlies(q: Queue, ids: seq<Id>, may: set<Id>)
    requires Flies(q, IdSet(ids) + may)
    ensures var (q', res) := Ack(q, ids);
            && Flies(q', IdSet(ids) + may) && (res.Done? ==> Flies(q', may)) && (res.Refused? ==> q'.closed)
  {
    hide Good, Ack;
    DoKeeps(q, DoAck(ids));
    AckFlight(q, ids);
  }

  /** One settlement call takes what it settles off what is owed. */
  lemma SettleStepFlies(q: Queue, at: Place, others: set<Id>)
    requires Settling(at)
    requires Flies(q, Owes(at) + others)
    ensures var (q', at') := SettleStep(q, at);
            && Flies(q', Owes(at') + others) && !at'.Clear? && !at'.Waiting? && !at'.Sweeping? && !at'.Over?
  {
    hide Flies, Nack, Ack, Drop;
    match at
    case Untried(untried, failed, sent, terminal) =>
      var rest := Owes(Failing(failed, sent, terminal)) + others;
      assert Owes(at) + others == IdSet(untried) + rest;
      if untried == [] {
        assert IdSet(untried) + rest == rest;
      } else {
        NackFlies(q, untried, NackUntried, rest);
      }
    case Failing(failed, sent, terminal) =>
      var rest := Owes(Acking(sent, terminal, 0, true)) + others;
      assert Owes(at) + others == IdSet([failed]) + rest;
      NackFlies(q, [failed], NackFailed, rest);
    case Acking(sent, terminal, tries, ending) => AckingFlies(q, at, others);
    case Delivered(sent, terminal) =>
      var rest := IdSet(terminal) + others;
      assert Owes(at) + others == IdSet(sent) + rest;
      if sent == [] {
        assert IdSet(sent) + rest == rest;
      } else {
        NackFlies(q, sent, NackDelivered, rest);
      }
    case Dropping(terminal) =>
      assert {} + others == others;
      if terminal == [] {
        assert Owes(at) + others == others;
      } else {
        DropFlies(q, terminal, others);
      }
  }

  lemma AckingFlies(q: Queue, at: Place, others: set<Id>)
    requires at.Acking?
    requires Flies(q, Owes(at) + others)
    ensures var (q', at') := SettleStep(q, at);
            && Flies(q', Owes(at') + others) && !at'.Clear? && !at'.Waiting? && !at'.Sweeping? && !at'.Over?
  {
    hide Nack, Ack, Drop, Good;
    var ids := at.sent + at.terminal;
    assert Owes(at) == IdSet(ids);
    assert {} + others == others;
    AckFlies(q, ids, others);
  }

  /** Left alone, a settlement ends with nothing of what it owed in flight. */
  lemma {:induction false} FinishFlies(q: Queue, at: Place, others: set<Id>)
    requires Settling(at) && Flies(q, Owes(at) + others)
    ensures var (q', at') := Finish(q, at); Flies(q', others) && (at'.Looping? || at'.Ended?)
    decreases CallsLeft(at)
  {
    hide Flies, SettleStep;
    SettleStepFlies(q, at, others);
    SettleStepPlace(q, at);
    var (q1, at1) := SettleStep(q, at);
    if Settling(at1) {
      FinishFlies(q1, at1, others);
    } else {
      assert Owes(at1) + others == others;
    }
  }

  lemma SettleStepPlace(q: Queue, at: Place)
    requires Settling(at)
    ensures var at' := SettleStep(q, at).1;
            CallsLeft(at') < CallsLeft(at) && (Settling(at') || at'.Looping? || at'.Ended?)
  {
    hide Ack, Nack, Drop;
  }

  lemma SettleSafe(s: Session)
    requires Can(s, SettleNext) && Safe(s)
    ensures Safe(Next(s, SettleNext))
  {
    hide Good, SettleStep, Owes;
    SettleStepFlies(s.q, s.at, if s.acks then s.sent else {});
  }

  lemma IdsOf(items: seq<Item>)
    ensures IdSet(IdSeq(items)) == Ids(items)
  {
    forall x | x in items ensures x.id in IdSeq(items) {
      var i :| 0 <= i < |items| && items[i] == x;
      assert IdSeq(items)[i] == x.id;
    }
    forall id | id in IdSeq(items) ensures id in Ids(items) {
      var i :| 0 <= i < |items| && IdSeq(items)[i] == id;
      assert items[i] in items;
    }
  }

  lemma SplitIds(items: seq<Item>, k: nat)
    requires k < |items|
    ensures Ids(items) == Ids(items[..k]) + {items[k].id} + Ids(items[k + 1..])
  {
    assert items == items[..k] + [items[k]] + items[k + 1..];
  }

  /** The settlement of a batch owes all of it, but for what delivery acks leave to the gateway. */
  lemma SettlementOwes(items: seq<Item>, says: nat -> Verdict, acks: bool)
    ensures var w := Walk(items, says, 0, [], []);
            && (w.failed.Some? ==> w.failed.value < |items|)
            && Ids(items) <= Owes(Settlement(items, w, acks)) + (if acks then IdSet(w.sent) else {})
  {
    hide Ids, Walk;
    WalkCovers(items, says, 0, [], []);
    var w := Walk(items, says, 0, [], []);
    if w.failed.Some? {
      var k := w.failed.value;
      IdsOf(items[k + 1..]);
      SplitIds(items, k);
      assert items[0..k] == items[..k];
    } else {
      assert items[0..|items|] == items;
    }
  }

  lemma PullFlies(q: Queue, n: nat, checks: nat, now: int, may: set<Id>)
    requires Flies(q, may) && n > 0
    ensures var (q', res) := Dequeue(q, n, checks, now);
            Flies(q', if res.Batch? then Ids(res.items) + may else may) && (!res.Batch? ==> q'.inflight == q.inflight)
  {
    hide Good, Dequeue, Ids;
    assert InHand(q) == 0 by { GoodHands(q); }
    DoKeeps(q, DoDequeue(n, checks, now));
    DequeueFlight(q, n, checks, now);
  }

  lemma FliesWithin(q: Queue, a: set<Id>, b: set<Id>)
    requires Flies(q, a) && a <= b
    ensures Flies(q, b)
  {
    hide Good;
  }

  lemma PullSafe(s: Session, checks: nat, now: int, says: nat -> Verdict)
    requires s.at.Clear?
    requires Safe(s)
    ensures Safe(AfterPull(s, checks, now, says))
  {
    hide Safe, Flies, Dequeue, Walk, Ids, Settlement, IdSet;
    var n, may := s.at.n, if s.acks then s.sent else {};
    ClearFlies(s);
    PullFlies(s.q, n, checks, now, may);
    var (q, res) := Dequeue(s.q, n, checks, now);
    if res.Batch? {
      BatchSafe(q, res.items, says, s.acks, s.sent);
    } else {
      NoBatchSafe(s, q);
    }
  }

  lemma ClearFlies(s: Session)
    requires s.at.Clear?
    requires Safe(s)
    ensures s.at.n > 0 && Flies(s.q, if s.acks then s.sent else {})
  {
    hide Good;
  }

  lemma NoBatchSafe(s: Session, q: Queue)
    requires s.at.Clear? && q.inflight == s.q.inflight
    requires Flies(q, if s.acks then s.sent else {})
    requires Safe(s)
    ensures Safe(s.(q := q)) && Safe(s.(q := q, at := Looping)) && Safe(s.(q := q, at := Ended))
  {
    hide Good;
  }

  lemma BatchSafe(q: Queue, items: seq<Item>, says: nat -> Verdict, acks: bool, sent: set<Id>)
    requires Flies(q, Ids(items) + if acks then sent else {})
    ensures var w := Walk(items, says, 0, [], []);
            && (w.failed.Some? ==> w.failed.value < |items|)
            && Safe(Session(q, acks, Settlement(items, w, acks), sent + IdSet(w.sent)))
  {
    hide Good, Walk, Ids, Settlement, Owes;
    SettlementOwes(items, says, acks);
    var w := Walk(items, says, 0, [], []);
    SettlementKind(items, w, acks);
    var at := Settlement(items, w, acks);
    FliesWithin(q, Ids(items) + (if acks then sent else {}), Owes(at) + (if acks then sent + IdSet(w.sent) else {}));
  }

  lemma GoodHands(q: Queue)
    requires Good(q)
    ensures InHand(q) == 0
  {
  }

  lemma SettlementKind(items: seq<Item>, w: Walked, acks: bool)
    requires w.failed.Some? ==> w.failed.value < |items|
    ensures Settlement(items, w, acks).Untried? || Settlement(items, w, acks).Acking?
  {
  }

  lemma SweepSafe(s: Session)
    requires Can(s, Sweep) && Safe(s)
    ensures Safe(Next(s, Sweep))
  {
    hide Good, Nack;
    var ids := s.at.ids;
    assert IdSet(ids) + {} == IdSet(ids);
    if ids != [] {
      NackFlies(s.q, ids, NackSessionEnd, {});
    }
  }

  /** Every event, the drain's own or anybody else's, keeps the session safe. */
  lemma NextSafe(s: Session, e: Event)
    requires Can(s, e) && Safe(s)
    ensures Safe(Next(s, e))
  {
    match e
    case Other(op) => OtherSafe(s, op);
    case Pull(checks, now, says) => PullSafe(s, checks, now, says);
    case SettleNext => SettleSafe(s);
    case Sweep => SweepSafe(s);
    case _ => QuietSafe(s, e);
  }

  lemma QuietSafe(s: Session, e: Event)
    requires e.Begin? || e.Look? || e.Leave? || e.Collect? || e.Reconnect?
    requires Can(s, e) && Safe(s)
    ensures Safe(Next(s, e))
  {
    hide Good;
  }

  ghost predicate Reaches(s: Session, events: seq<Event>, t: Session)
    decreases |events|
  {
    if events == [] then t == s else Can(s, events[0]) && Reaches(Next(s, events[0]), events[1..], t)
  }

  lemma {:induction false} RunSafe(s: Session, events: seq<Event>, t: Session)
    requires Reaches(s, events, t) && Safe(s)
    ensures Safe(t)
    decreases |events|
  {
    hide Safe, Next, Can;
    if events != [] {
      NextSafe(s, events[0]);
      RunSafe(Next(s, events[0]), events[1..], t);
    }
  }

  /** A session over a queue with nothing in flight, as a start or a finished sweep leaves it. */
  ghost function FirstSession(q: Queue, acks: bool): Session {
    Session(q, acks, Looping, {})
  }

  lemma FirstSafe(q: Queue, acks: bool)
    requires Good(q) && q.inflight == map[]
    ensures Safe(FirstSession(q, acks))
  {
    hide Good;
  }

  // ---- The laws ----

  /** No item is stranded. Over every run of sessions, with any failures and any interleaving: when
      the loop is between batches or has left, nothing of any batch is in flight without delivery
      acks, only sent items are with them, and nothing at all is once the sweep is done. */
  lemma NoStranding(q: Queue, acks: bool, events: seq<Event>, t: Session)
    requires Good(q) && q.inflight == map[]
    requires Reaches(FirstSession(q, acks), events, t)
    ensures !t.q.closed && (t.at.Looping? || t.at.Ended?) && !t.acks ==> t.q.inflight == map[]
    ensures !t.q.closed && (t.at.Looping? || t.at.Ended?) ==> t.q.inflight.Keys <= t.sent
    ensures !t.q.closed && t.at.Over? ==> t.q.inflight == map[]
  {
    hide Good, Reaches;
    FirstSafe(q, acks);
    RunSafe(FirstSession(q, acks), events, t);
    assert t.q.inflight.Keys == {} ==> t.q.inflight == map[];
  }

  /** From a safe session a pull keeps within the envelope. */
  lemma PullBound(s: Session, checks: nat, now: int, says: nat -> Verdict)
    requires s.at.Clear? && Safe(s)
    ensures var q' := AfterPull(s, checks, now, says).q;
            && q'.closed == s.q.closed && PeakWithin(s.q, q')
            && (s.acks ==> |q'.inflight| <= s.at.n * MAX_INFLIGHT_BATCHES)
            && (!s.acks && !s.q.closed ==> |q'.inflight| <= s.at.n)
  {
    hide Good, Dequeue, Walk, Settlement, Ids;
    assert InHand(s.q) == 0 by { GoodHands(s.q); }
    DequeueFlight(s.q, s.at.n, checks, now);
    if !s.acks && !s.q.closed {
      assert s.q.inflight.Keys == {};
      assert s.q.inflight == map[];
    }
  }

  /** Right after each dequeue under delivery acks the count in flight is at most twice that turn's
      batch size, whatever acks, sweeps and batch-size changes came between; without them it is at
      most the batch size until the queue closes. */
  lemma EnvelopeLaw(q: Queue, acks: bool, events: seq<Event>, t: Session, checks: nat, now: int, says: nat -> Verdict)
    requires t.at.Clear? && q.inflight == map[]
    requires Reaches(FirstSession(q, acks), events, t)
    requires Good(q)
    ensures var t' := AfterPull(t, checks, now, says);
            && (t.acks ==> |t'.q.inflight| <= t.at.n * MAX_INFLIGHT_BATCHES)
            && (!t.acks && !t.q.closed ==> |t'.q.inflight| <= t.at.n)
  {
    hide Good, Reaches, AfterPull, Safe;
    FirstSafe(q, acks);
    RunSafe(FirstSession(q, acks), events, t);
    PullBound(t, checks, now, says);
  }
}
