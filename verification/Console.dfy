/** Console output across stream cuts: the process's writers (one with a tty, else one each for stdout
    and stderr), the transport that
    attaches, replays, pumps and detaches, and the gateway that resumes from the last number it saw. */
module Console {
  import opened Bytes
  import opened Rings

  const OUTPUT_QUEUE := 256

  /** What the session's lock protects. Every retired live channel stays as `queues` has it; `gen`
      is the current one. */
  datatype Shared = Shared(all: seq<Frame>, low: nat, max: int, attached: bool, gen: nat, queues: map<nat, seq<Frame>>)

  function Queued(s: Shared, g: nat): seq<Frame> {
    if g in s.queues then s.queues[g] else []
  }

  function Attached(s: Shared): Shared {
    s.(attached := true)
  }

  /** retireOutputLocked: a fresh channel takes over. */
  function Retired(s: Shared): Shared {
    s.(gen := s.gen + 1)
  }

  function Detached(s: Shared): Shared {
    Retired(s.(attached := false))
  }

  function ReplayStart(s: Shared, after: nat): nat {
    if s.low <= |s.all| then StartAfter(|s.all|, s.low, after) else 0
  }

  function Pushed(s: Shared, ch: Channel, chunk: seq<byte>): Shared {
    var all := s.all + [Frame(ch, |s.all| + 1, chunk)];
    s.(all := all, low := if s.low < |all| then Trim(all, s.low, s.max) else s.low)
  }

  function Delivered(s: Shared, g: nat, f: Frame): Shared {
    s.(queues := s.queues[g := Queued(s, g) + [f]])
  }

  // ---- The protocol ----

  /** The writer between its locked step and its send: the frame and the channel it captured. */
  datatype Writer = Idle | Holding(f: Frame, gen: nat)

  datatype Pump = Away | Present | Replaying(rest: seq<Frame>) | Live(gen: nat)

  /** `line` is what went out on the current attachment, whose replay began after number `from` at
      index `start`; `recv` is how much of it the gateway has taken; `got` is everything the gateway
      ever took, `gaps` the gaps that replays reported: after which number, up to which. */
  datatype Console = Console(
    tty: bool, s: Shared, writer: Writer, errWriter: Writer, pump: Pump, over: bool, abandoned: bool,
    line: seq<Frame>, from: nat, start: nat, recv: nat, got: seq<Frame>, gaps: seq<(nat, nat)>)

  function LastSeen(got: seq<Frame>): nat {
    if got == [] then 0 else got[|got| - 1].seqno
  }

  function Hand(c: Console, err: bool): Writer {
    if err then c.errWriter else c.writer
  }

  function WithHand(c: Console, err: bool, w: Writer): Console {
    if err then c.(errWriter := w) else c.(writer := w)
  }

  datatype Event =
    | Push(err: bool, ch: Channel, chunk: seq<byte>)
    | Deliver(err: bool)
    | LetGo(err: bool)
    | Abandon(err: bool)
    | End
    | Attach
    | Replay
    | SendReplayed
    | Fetch
    | SendLive
    | Receive
    | Detach

  ghost predicate Can(c: Console, e: Event) {
    match e
    case Push(err, _, _) => Hand(c, err).Idle? && (err ==> !c.tty)
    case Deliver(err) => Hand(c, err).Holding? && |Queued(c.s, Hand(c, err).gen)| < OUTPUT_QUEUE
    case LetGo(err) => Hand(c, err).Holding? && Hand(c, err).gen != c.s.gen
    case Abandon(err) => Hand(c, err).Holding? && c.over
    case End => true
    case Attach => c.pump.Away?
    case Replay => c.pump.Present?
    case SendReplayed => c.pump.Replaying? && c.pump.rest != []
    case Fetch => c.pump.Replaying? && c.pump.rest == []
    case SendLive => c.pump.Live? && Queued(c.s, c.pump.gen) != []
    case Receive => c.recv < |c.line|
    case Detach => true
  }

  ghost predicate InGap(gaps: seq<(nat, nat)>, n: nat) {
    exists g | g in gaps :: g.0 < n <= g.1
  }

  ghost function Next(c: Console, e: Event): Console
    requires Can(c, e)
  {
    match e
    case Push(err, ch, chunk) =>
      var s := Pushed(c.s, ch, chunk);
      WithHand(c.(s := s), err, if c.s.attached then Holding(s.all[|c.s.all|], c.s.gen) else Idle)
    case Deliver(err) => WithHand(c.(s := Delivered(c.s, Hand(c, err).gen, Hand(c, err).f)), err, Idle)
    case LetGo(err) => WithHand(c, err, Idle)
    case Abandon(err) => WithHand(c.(abandoned := true), err, Idle)
    case End => c.(over := true)
    case Attach => c.(s := Attached(c.s), pump := Present)
    case Replay =>
      var from := LastSeen(c.got);
      var start := ReplayStart(c.s, from);
      c.(s := Retired(c.s), pump := Replaying(if start <= |c.s.all| then c.s.all[start..] else []),
         from := from, start := start, gaps := if from < start then c.gaps + [(from, start)] else c.gaps)
    case SendReplayed => c.(line := c.line + [c.pump.rest[0]], pump := Replaying(c.pump.rest[1..]))
    case Fetch => c.(pump := Live(c.s.gen))
    case SendLive =>
      var queue := Queued(c.s, c.pump.gen);
      c.(s := c.s.(queues := c.s.queues[c.pump.gen := queue[1..]]), line := c.line + [queue[0]])
    case Receive => c.(got := c.got + [c.line[c.recv]], recv := c.recv + 1)
    case Detach => c.(s := Detached(c.s), pump := Away, line := [], recv := 0)
  }

  function Opened(max: int, tty: bool): Console {
    Console(tty, Shared([], 0, max, false, 0, map[]), Idle, Idle, Away, false, false, [], 0, 0, 0, [], [])
  }

  // ---- The invariant ----

  predicate Pumping(p: Pump) {
    p.Replaying? || p.Live?
  }

  function Unsent(p: Pump): seq<Frame> {
    if p.Replaying? then p.rest else []
  }

  function Held(w: Writer, gen: nat): seq<Frame> {
    if w.Holding? && w.gen == gen then [w.f] else []
  }

  /** Sent, still to replay, queued live, in the writer's hand: one run of frames up to the last. */
  ghost predicate Seamless(c: Console) {
    && c.start <= |c.s.all|
    && c.line + Unsent(c.pump) + Queued(c.s, c.s.gen) + Held(c.writer, c.s.gen) == c.s.all[c.start..]
  }

  ghost predicate Shape(c: Console) {
    && Numbered(c.s.all) && Retained(c.s.all, c.s.max, c.s.low)
    && (c.s.attached <==> !c.pump.Away?)
    && (c.pump.Live? ==> c.pump.gen == c.s.gen)
    && (c.writer.Holding? ==> c.writer.gen <= c.s.gen)
    && (c.errWriter.Holding? ==> c.errWriter.gen <= c.s.gen && !c.tty)
    && (forall g | g in c.s.queues :: g <= c.s.gen)
    && (!Pumping(c.pump) ==> c.line == [])
    && c.recv <= |c.line|
  }

  /** Up to the last number seen, the gateway has each frame exactly once, in order, but for the
      numbers in reported gaps. */
  ghost predicate ExactlyOnce(got: seq<Frame>, gaps: seq<(nat, nat)>, all: seq<Frame>) {
    && (forall i | 0 <= i < |got| :: 0 < got[i].seqno <= |all| && got[i] == all[got[i].seqno - 1])
    && (forall i, j | 0 <= i < j < |got| :: got[i].seqno < got[j].seqno)
    && (forall n | 0 < n <= LastSeen(got) :: InGap(gaps, n) <==> !Has(got, n))
  }

  ghost predicate Has(got: seq<Frame>, n: nat) {
    exists i :: 0 <= i < |got| && got[i].seqno == n
  }

  ghost predicate GapsBelow(gaps: seq<(nat, nat)>, low: nat) {
    forall g | g in gaps :: g.1 <= low
  }

  /** How far the gateway is on this attachment; what lies before its start is a reported gap. */
  ghost predicate OnLine(c: Console) {
    && c.from <= c.start && GapsBelow(c.gaps, c.start)
    && LastSeen(c.got) == (if c.recv == 0 then c.from else c.start + c.recv)
    && (c.from < c.start ==> (c.from, c.start) in c.gaps)
  }

  /** One writer, and it has given up no frame. */
  predicate Ordered(c: Console) {
    c.tty && !c.abandoned
  }

  ghost predicate Inv(c: Console) {
    && Shape(c) && GapsBelow(c.gaps, c.s.low)
    && (Ordered(c) ==> ExactlyOnce(c.got, c.gaps, c.s.all))
    && (Ordered(c) && Pumping(c.pump) ==> Seamless(c) && OnLine(c))
  }

  // ---- Every step keeps it ----

  lemma TrimGrows(all: seq<Frame>, low: nat, max: int, f: Frame)
    requires Retained(all, max, low)
    ensures low <= Trim(all + [f], low, max)
    ensures Retained(all + [f], max, Trim(all + [f], low, max))
  {
    PushRetains(all, low, max, f);
  }

  lemma OnceGrows(got: seq<Frame>, gaps: seq<(nat, nat)>, all: seq<Frame>, f: Frame)
    requires ExactlyOnce(got, gaps, all)
    ensures ExactlyOnce(got, gaps, all + [f])
  {
  }

  lemma PushKeeps(c: Console, err: bool, ch: Channel, chunk: seq<byte>)
    requires Inv(c) && Can(c, Push(err, ch, chunk))
    ensures Inv(Next(c, Push(err, ch, chunk)))
  {
    hide Retained, ExactlyOnce, Trim, Shape, Seamless, GapsBelow;
    PushShape(c, err, ch, chunk);
    if Ordered(c) {
      OnceGrows(c.got, c.gaps, c.s.all, Frame(ch, |c.s.all| + 1, chunk));
      if Pumping(c.pump) {
        PushSeamless(c, err, ch, chunk);
      }
    }
  }

  lemma PushShape(c: Console, err: bool, ch: Channel, chunk: seq<byte>)
    requires Shape(c) && GapsBelow(c.gaps, c.s.low) && Can(c, Push(err, ch, chunk))
    ensures var c' := Next(c, Push(err, ch, chunk)); Shape(c') && GapsBelow(c'.gaps, c'.s.low)
  {
    hide Retained, Trim;
    LowInRange(c.s.all, c.s.max, c.s.low);
    TrimGrows(c.s.all, c.s.low, c.s.max, Frame(ch, |c.s.all| + 1, chunk));
  }

  lemma PushSeamless(c: Console, err: bool, ch: Channel, chunk: seq<byte>)
    requires Shape(c) && Seamless(c) && c.tty && Pumping(c.pump) && Can(c, Push(err, ch, chunk))
    ensures Seamless(Next(c, Push(err, ch, chunk)))
  {
    hide Retained, Trim, Numbered;
    SeamGrows(c.line + Unsent(c.pump) + Queued(c.s, c.s.gen), c.s.all, c.start, Frame(ch, |c.s.all| + 1, chunk));
  }

  lemma SeamGrows(sent: seq<Frame>, all: seq<Frame>, start: nat, f: Frame)
    requires start <= |all| && sent + [] == all[start..]
    ensures sent + [f] == (all + [f])[start..]
  {
    assert (all + [f])[start..] == all[start..] + [f];
  }

  lemma DeliverKeeps(c: Console, err: bool)
    requires Inv(c) && Can(c, Deliver(err))
    ensures Inv(Next(c, Deliver(err)))
  {
    hide Retained, ExactlyOnce;
    if Ordered(c) && Pumping(c.pump) && c.writer.gen == c.s.gen {
      var sent := c.line + Unsent(c.pump);
      Regroup([], sent, Queued(c.s, c.s.gen), [c.writer.f]);
      assert sent + (Queued(c.s, c.s.gen) + [c.writer.f]) + [] == sent + (Queued(c.s, c.s.gen) + [c.writer.f]);
    }
  }

  lemma ReplayKeeps(c: Console)
    requires Inv(c) && Can(c, Replay)
    ensures Inv(Next(c, Replay))
  {
    hide Retained, ExactlyOnce, Numbered, GapsBelow, Seamless, OnLine;
    LowInRange(c.s.all, c.s.max, c.s.low);
    var c' := Next(c, Replay);
    GapsBelowGrow(c.gaps, c.s.low, c'.from, c'.start);
    if Ordered(c) {
      SeenInRange(c.got, c.gaps, c.s.all);
      GapsGrow(c.got, c.gaps, c.s.all, c'.from, c'.start);
      ReplaySeamless(c);
      ReplayOnLine(c);
    }
  }

  lemma GapsBelowGrow(gaps: seq<(nat, nat)>, low: nat, from: nat, start: nat)
    requires GapsBelow(gaps, low)
    ensures start <= low ==> GapsBelow(gaps + [(from, start)], low)
    ensures low <= start ==> GapsBelow(gaps + [(from, start)], start) && GapsBelow(gaps, start)
  {
  }

  lemma ReplaySeamless(c: Console)
    requires c.pump.Present? && c.s.low <= |c.s.all| && c.line == [] && LastSeen(c.got) <= |c.s.all|
    requires (forall g | g in c.s.queues :: g <= c.s.gen) && (c.writer.Holding? ==> c.writer.gen <= c.s.gen)
    ensures Seamless(Next(c, Replay))
  {
    var c' := Next(c, Replay);
    assert [] + c'.pump.rest + [] + [] == c'.pump.rest;
  }

  lemma ReplayOnLine(c: Console)
    requires c.pump.Present? && c.s.low <= |c.s.all| && c.recv == 0 && LastSeen(c.got) <= |c.s.all|
    requires GapsBelow(c.gaps, c.s.low)
    ensures OnLine(Next(c, Replay))
  {
    var c' := Next(c, Replay);
    GapsBelowGrow(c.gaps, c.s.low, c'.from, c'.start);
  }

  lemma SeenInRange(got: seq<Frame>, gaps: seq<(nat, nat)>, all: seq<Frame>)
    requires ExactlyOnce(got, gaps, all)
    ensures LastSeen(got) <= |all|
  {
  }

  lemma GapsGrow(got: seq<Frame>, gaps: seq<(nat, nat)>, all: seq<Frame>, from: nat, start: nat)
    requires ExactlyOnce(got, gaps, all) && LastSeen(got) <= from
    ensures ExactlyOnce(got, gaps + [(from, start)], all)
  {
    var more := gaps + [(from, start)];
    forall n | 0 < n <= LastSeen(got) ensures InGap(more, n) <==> InGap(gaps, n) {
      if InGap(gaps, n) {
        var g :| g in gaps && g.0 < n <= g.1;
        assert g in more;
      }
    }
  }

  lemma SendReplayedKeeps(c: Console)
    requires Inv(c) && Can(c, SendReplayed)
    ensures Inv(Next(c, SendReplayed))
  {
    hide Retained, ExactlyOnce, Numbered, GapsBelow;
    MoveOver(c.line, c.pump.rest);
  }

  /** One frame moves from the front of what waits to the end of the line. */
  lemma MoveOver(line: seq<Frame>, rest: seq<Frame>)
    requires rest != []
    ensures line + [rest[0]] + rest[1..] == line + rest
    ensures line + [] == line
  {
    assert rest == [rest[0]] + rest[1..];
  }

  lemma SendLiveKeeps(c: Console)
    requires Inv(c) && Can(c, SendLive)
    ensures Inv(Next(c, SendLive))
  {
    hide Retained, ExactlyOnce, Numbered, GapsBelow;
    var queue := Queued(c.s, c.pump.gen);
    MoveOver(c.line, queue);
    MoveOver(c.line + [queue[0]], queue);
  }

  lemma SentIsAll(c: Console, i: nat)
    requires Seamless(c) && i < |c.line|
    ensures c.start + i < |c.s.all| && c.line[i] == c.s.all[c.start + i]
  {
    var whole := c.line + Unsent(c.pump) + Queued(c.s, c.s.gen) + Held(c.writer, c.s.gen);
    assert whole[i] == c.line[i] && c.s.all[c.start..][i] == c.s.all[c.start + i];
  }

  lemma OnceMore(got: seq<Frame>, gaps: seq<(nat, nat)>, all: seq<Frame>, n: nat)
    requires ExactlyOnce(got, gaps, all) && LastSeen(got) < n <= |all| && Numbered(all)
    requires !InGap(gaps, n) && forall m | LastSeen(got) < m < n :: InGap(gaps, m)
    ensures ExactlyOnce(got + [all[n - 1]], gaps, all)
  {
    var more := got + [all[n - 1]];
    assert more[|got|].seqno == n;
    forall i | 0 <= i < |got| ensures got[i].seqno <= LastSeen(got) {
    }
    forall m | 0 < m <= n ensures InGap(gaps, m) <==> !Has(more, m) {
      if Has(got, m) {
        var i :| 0 <= i < |got| && got[i].seqno == m;
        assert more[i].seqno == m;
      }
    }
  }

  lemma ReceiveKeeps(c: Console)
    requires Inv(c) && Can(c, Receive)
    ensures Inv(Next(c, Receive))
  {
    hide Retained, ExactlyOnce;
    if Ordered(c) {
      SentIsAll(c, c.recv);
      var n := c.start + c.recv + 1;
      if c.recv == 0 && c.from < c.start {
        assert (c.from, c.start) in c.gaps;
      }
      OnceMore(c.got, c.gaps, c.s.all, n);
    }
  }

  lemma QuietKeeps(c: Console, e: Event)
    requires e.LetGo? || e.Abandon? || e.End? || e.Attach? || e.Fetch? || e.Detach?
    requires Inv(c) && Can(c, e)
    ensures Inv(Next(c, e))
  {
    hide Retained, ExactlyOnce;
  }

  /** Every step of the writer, the transport, the gateway or the session's end. */
  lemma StepKeeps(c: Console, e: Event)
    requires Inv(c) && Can(c, e)
    ensures Inv(Next(c, e))
  {
    hide Inv;
    match e
    case Push(err, ch, chunk) => PushKeeps(c, err, ch, chunk);
    case Deliver(err) => DeliverKeeps(c, err);
    case Replay => ReplayKeeps(c);
    case SendReplayed => SendReplayedKeeps(c);
    case SendLive => SendLiveKeeps(c);
    case Receive => ReceiveKeeps(c);
    case _ => QuietKeeps(c, e);
  }

  ghost predicate Reaches(c: Console, events: seq<Event>, d: Console)
    decreases |events|
  {
    if events == [] then d == c else Can(c, events[0]) && Reaches(Next(c, events[0]), events[1..], d)
  }

  lemma SameTty(c: Console, e: Event)
    requires Can(c, e)
    ensures Next(c, e).tty == c.tty
  {
  }

  lemma {:induction false} RunKeeps(c: Console, events: seq<Event>, d: Console)
    requires Reaches(c, events, d) && Inv(c)
    ensures Inv(d) && d.tty == c.tty
    decreases |events|
  {
    hide Inv, Can, Next;
    if events != [] {
      StepKeeps(c, events[0]);
      SameTty(c, events[0]);
      RunKeeps(Next(c, events[0]), events[1..], d);
    }
  }

  lemma OpenedInv(max: int, tty: bool)
    ensures Inv(Opened(max, tty))
  {
  }

  // ---- The laws ----

  /** In every run of a tty console, until the writer gives up a frame at the session's end: what goes out on an
      attachment is a consecutive run of frames, from right after the number the gateway resumed
      from or from the oldest one retained. */
  lemma AttachmentLaw(max: int, events: seq<Event>, d: Console, i: nat)
    requires Reaches(Opened(max, true), events, d) && !d.abandoned && i < |d.line|
    ensures d.start + i < |d.s.all| && d.line[i] == d.s.all[d.start + i] && d.line[i].seqno == d.start + i + 1
    ensures d.from <= d.start && (d.from < d.start ==> (d.from, d.start) in d.gaps)
  {
    hide Reaches;
    OpenedInv(max, true);
    RunKeeps(Opened(max, true), events, d);
    SentIsAll(d, i);
  }

  /** Exactly once, for a tty console: what the gateway has taken over all attachments is, in order and without
      repetition, every frame up to the last one it saw, except the numbers in reported gaps; with
      no gap it is the very beginning of the output. */
  lemma ReplayLaw(max: int, events: seq<Event>, d: Console)
    requires Reaches(Opened(max, true), events, d) && !d.abandoned
    ensures ExactlyOnce(d.got, d.gaps, d.s.all)
    ensures d.gaps == [] ==> |d.got| <= |d.s.all| && d.got == d.s.all[..|d.got|]
  {
    hide Reaches;
    OpenedInv(max, true);
    RunKeeps(Opened(max, true), events, d);
    if d.gaps == [] {
      NoGaps(d.got, d.s.all, |d.got|);
    }
  }

  lemma {:induction false} NoGaps(got: seq<Frame>, all: seq<Frame>, k: nat)
    requires ExactlyOnce(got, [], all) && k <= |got|
    ensures k <= |all| && got[..k] == all[..k] && (k > 0 ==> got[k - 1].seqno == k)
    ensures k == |got| ==> got == all[..k]
    decreases k
  {
    if k > 0 {
      NoGaps(got, all, k - 1);
      assert got[k - 1].seqno >= k;
      if got[k - 1].seqno > k {
        assert k <= LastSeen(got);
        assert Has(got, k);
        var i :| 0 <= i < |got| && got[i].seqno == k;
        assert false;
      }
      assert got[..k] == got[..k - 1] + [got[k - 1]] && all[..k] == all[..k - 1] + [all[k - 1]];
    }
    assert got[..|got|] == got;
  }

  /** Nothing is held back: when a live attachment has drained and the gateway has taken what was
      sent, the gateway has seen the last frame produced. */
  lemma CaughtUp(max: int, events: seq<Event>, d: Console)
    requires Reaches(Opened(max, true), events, d) && !d.abandoned
    requires d.pump.Live? && Queued(d.s, d.s.gen) == [] && d.writer.Idle? && d.recv == |d.line|
    ensures LastSeen(d.got) == |d.s.all|
  {
    hide Reaches, ExactlyOnce, Retained;
    OpenedInv(max, true);
    RunKeeps(Opened(max, true), events, d);
    LowInRange(d.s.all, d.s.max, d.s.low);
    assert d.line + [] + [] + [] == d.line;
    assert |d.line| == |d.s.all| - d.start;
    if d.from < d.start {
      assert (d.from, d.start) in d.gaps;
    }
  }

  // ---- Two writers ----

  function Swap(x: seq<byte>, y: seq<byte>): seq<Event> {
    [Push(false, Stdout, x), Push(true, Stderr, y), Deliver(true), Deliver(false), SendLive, SendLive]
  }

  lemma SwapQueues(c: Console, x: seq<byte>, y: seq<byte>) returns (d: Console)
    requires c.pump == Live(c.s.gen) && c.s.attached && !c.tty && c.writer.Idle? && c.errWriter.Idle?
    requires Queued(c.s, c.s.gen) == []
    ensures Reaches(c, [Push(false, Stdout, x), Push(true, Stderr, y), Deliver(true), Deliver(false)], d)
    ensures d.line == c.line && d.pump == c.pump && d.start == c.start && d.s.gen == c.s.gen
            && d.abandoned == c.abandoned
    ensures Queued(d.s, d.s.gen) == [Frame(Stderr, |c.s.all| + 2, y), Frame(Stdout, |c.s.all| + 1, x)]
  {
    hide Trim, Reaches;
    var c1 := Next(c, Push(false, Stdout, x));
    var c2 := Next(c1, Push(true, Stderr, y));
    var c3 := Next(c2, Deliver(true));
    d := Next(c3, Deliver(false));
    Nowhere(d);
    Then(c3, Deliver(false), [], d, [Deliver(false)]);
    Then(c2, Deliver(true), [Deliver(false)], d, [Deliver(true), Deliver(false)]);
    var two := [Deliver(true), Deliver(false)];
    var three := [Push(true, Stderr, y)] + two;
    Then(c1, Push(true, Stderr, y), two, d, three);
    Then(c, Push(false, Stdout, x), three, d, [Push(false, Stdout, x)] + three);
    assert [Push(false, Stdout, x)] + three
           == [Push(false, Stdout, x), Push(true, Stderr, y), Deliver(true), Deliver(false)];
  }

  lemma SwapSends(c: Console) returns (d: Console)
    requires c.pump == Live(c.s.gen) && |Queued(c.s, c.s.gen)| == 2
    ensures Reaches(c, [SendLive, SendLive], d)
    ensures d.line == c.line + Queued(c.s, c.s.gen) && d.start == c.start && d.abandoned == c.abandoned
  {
    hide Reaches;
    var c1 := Next(c, SendLive);
    d := Next(c1, SendLive);
    Nowhere(d);
    Then(c1, SendLive, [], d, [SendLive]);
    Then(c, SendLive, [SendLive], d, [SendLive, SendLive]);
  }

  /** Without a tty, any two frames pushed one after the other on an idle live attachment may go
      out the other way round. */
  lemma TwoWritersSwap(c: Console, x: seq<byte>, y: seq<byte>) returns (d: Console)
    requires c.pump == Live(c.s.gen) && c.s.attached && !c.tty && c.writer.Idle? && c.errWriter.Idle?
    requires Queued(c.s, c.s.gen) == []
    ensures Reaches(c, Swap(x, y), d) && d.start == c.start && d.abandoned == c.abandoned
    ensures d.line == c.line + [Frame(Stderr, |c.s.all| + 2, y), Frame(Stdout, |c.s.all| + 1, x)]
  {
    hide Reaches;
    var c4 := SwapQueues(c, x, y);
    d := SwapSends(c4);
    var first := [Push(false, Stdout, x), Push(true, Stderr, y), Deliver(true), Deliver(false)];
    Onward(c, first, c4, [SendLive, SendLive], d);
    assert first + [SendLive, SendLive] == Swap(x, y);
  }

  lemma Nowhere(c: Console)
    ensures Reaches(c, [], c)
  {
  }

  lemma Then(c: Console, e: Event, rest: seq<Event>, d: Console, all: seq<Event>)
    requires all == [e] + rest && Can(c, e) && Reaches(Next(c, e), rest, d)
    ensures Reaches(c, all, d)
  {
    assert all[1..] == rest;
  }

  lemma {:induction false} Onward(c: Console, first: seq<Event>, c': Console, rest: seq<Event>, d: Console)
    requires Reaches(c, first, c') && Reaches(c', rest, d)
    ensures Reaches(c, first + rest, d)
    decreases |first|
  {
    hide Can, Next;
    if first == [] {
      assert first + rest == rest;
    } else {
      Onward(Next(c, first[0]), first[1..], c', rest, d);
      assert (first + rest)[1..] == first[1..] + rest;
    }
  }

  lemma LiveAtOnce(max: int) returns (c: Console)
    ensures Reaches(Opened(max, false), [Attach, Replay, Fetch], c)
    ensures c.pump == Live(c.s.gen) && c.s.attached && !c.tty && c.writer.Idle? && c.errWriter.Idle?
    ensures Queued(c.s, c.s.gen) == [] && c.line == [] && c.start == 0 && !c.abandoned && c.s.all == []
  {
    hide Reaches;
    var c0 := Opened(max, false);
    var c1 := Next(c0, Attach);
    var c2 := Next(c1, Replay);
    c := Next(c2, Fetch);
    Nowhere(c);
    Then(c2, Fetch, [], c, [Fetch]);
    Then(c1, Replay, [Fetch], c, [Replay, Fetch]);
    Then(c0, Attach, [Replay, Fetch], c, [Attach, Replay, Fetch]);
  }

  ghost predicate Consecutive(c: Console) {
    forall i | 0 <= i < |c.line| :: c.line[i].seqno == c.start + i + 1
  }

  /** A console sends consecutive numbers in all its runs, until a writer gives up a frame, exactly
      when it has a tty. */
  lemma TtyLaw(max: int, tty: bool)
    ensures tty <==> forall events, d :: Reaches(Opened(max, tty), events, d) && !d.abandoned ==> Consecutive(d)
  {
    hide Reaches;
    if tty {
      forall events, d | Reaches(Opened(max, tty), events, d) && !d.abandoned ensures Consecutive(d) {
        forall i | 0 <= i < |d.line| ensures d.line[i].seqno == d.start + i + 1 {
          AttachmentLaw(max, events, d, i);
        }
      }
    } else {
      var c := LiveAtOnce(max);
      var d := TwoWritersSwap(c, [0], [0]);
      Onward(Opened(max, false), [Attach, Replay, Fetch], c, Swap([0], [0]), d);
      assert d.line[0].seqno == 2;
      assert !Consecutive(d);
    }
  }
}
