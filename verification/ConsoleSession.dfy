/** The console session object: what its lock protects, and the writer's loop. */
module ConsoleSessions {
  import opened Bytes
  import opened Rings
  import Console

  const MAX_CHUNK_BYTES := 0x8000

  /** What the writer's send met: room in the channel, a retired channel, or the session's end. */
  datatype Met = Room | RetiredChannel | SessionDone

  function Concat(frames: seq<Frame>): seq<byte> {
    if frames == [] then [] else frames[0].chunk + Concat(frames[1..])
  }

  lemma {:induction false} ConcatSnoc(frames: seq<Frame>, f: Frame)
    ensures Concat(frames + [f]) == Concat(frames) + f.chunk
  {
    if frames == [] {
      assert [f][1..] == [] && [] + [f] == [f];
      assert f.chunk + [] == f.chunk && [] + f.chunk == f.chunk;
    } else {
      assert (frames + [f])[1..] == frames[1..] + [f];
      ConcatSnoc(frames[1..], f);
      Assoc(frames[0].chunk, Concat(frames[1..]), f.chunk);
    }
  }

  class Session {
    const ring: Ring
    var attached: bool
    var gen: nat
    var queues: map<nat, seq<Frame>>

    ghost predicate Valid()
      reads this, ring
    {
      ring.Valid()
    }

    ghost function Abs(): Console.Shared
      reads this, ring
    {
      Console.Shared(ring.all, ring.low, ring.max, attached, gen, queues)
    }

    constructor (ringBytes: int)
      ensures Valid() && fresh(ring) && Abs() == Console.Opened(ringBytes, true).s
    {
      ring := new Ring(ringBytes);
      attached, gen, queues := false, 0, map[];
      new;
      RetainedUnique([], ringBytes, 0, ring.low);
    }

    method RetireOutput()
      modifies this`gen
      ensures gen == old(gen) + 1
    {
      gen := gen + 1;
    }

    method Attach()
      requires Valid()
      modifies this
      ensures Valid() && Abs() == Console.Attached(old(Abs()))
    {
      attached := true;
    }

    method Detach()
      requires Valid()
      modifies this
      ensures Valid() && Abs() == Console.Detached(old(Abs()))
    {
      attached := false;
      RetireOutput();
    }

    /** Replay: the retained frames after a number, and a fresh live channel, in one step. */
    method Replay(after: nat) returns (frames: seq<Frame>, gap: bool)
      requires Valid()
      modifies this
      ensures Valid() && Abs() == Console.Retired(old(Abs()))
      ensures var start := Console.ReplayStart(Abs(), after);
              && start <= |ring.all| && frames == ring.all[start..]
              && (gap <==> after < start && after <= |ring.all|)
      ensures gap <==> after < ring.low
    {
      hide Retained, Total, Numbered;
      frames, gap := ring.Since(after);
      RetireOutput();
      LowInRange(ring.all, ring.max, ring.low);
    }

    /** The writer's locked step: the frame is numbered and kept, and the channel of the moment
        captured. */
    method Begin(ch: Channel, chunk: seq<byte>) returns (f: Frame, live: bool, g: nat)
      requires Valid()
      modifies this, ring
      ensures Valid() && Abs() == Console.Pushed(old(Abs()), ch, chunk)
      ensures ring.all == old(ring.all) + [f] && f == Frame(ch, |ring.all|, chunk)
      ensures live == old(attached) && g == old(gen)
    {
      hide Retained, Total, Numbered, Trim;
      LowInRange(ring.all, ring.max, ring.low);
      f := ring.Push(ch, chunk);
      live, g := attached, gen;
    }

    method Send(g: nat, f: Frame)
      requires Valid()
      modifies this
      ensures Valid() && Abs() == Console.Delivered(old(Abs()), g, f)
    {
      queues := queues[g := (if g in queues then queues[g] else []) + [f]];
    }

    /** The writer's send on the channel it captured: what the select met decides. `done`: the session
        is over, and so is the write. */
    method Select(m: Met, g: nat, f: Frame) returns (done: bool)
      requires Valid()
      modifies this
      ensures Valid() && Abs() == Selected(old(Abs()), m, g, f) && (done <==> m.SessionDone?)
    {
      if m.Room? {
        Send(g, f);
      }
      return m.SessionDone?;
    }

    /** chunkWriter.Write with nobody else at the session: the bytes are cut into frames of at most
        MAX_CHUNK_BYTES, all of them kept for replay and, while attached, sent on the live channel,
        unless the session ended on the way. */
    method Write(ch: Channel, p: seq<byte>, met: nat -> Met) returns (ok: bool, ghost mine: seq<Frame>)
      requires Valid()
      modifies this, ring
      ensures Valid() && ring.all == old(ring.all) + mine
      ensures Concat(mine) <= p && (ok ==> Concat(mine) == p) && CutToSize(mine)
      ensures attached == old(attached) && gen == old(gen)
      ensures Abs() == Wrote(old(Abs()), ch, Cuts(p), met, 0)
      ensures ok <==> !Ends(old(attached), Cuts(p), met, 0)
    {
      hide Ring.Valid, Trim, Concat, CutToSize, Wrote, Ends, Cuts, Selected, Console.Pushed;
      var rest, turn := p, 0;
      mine := [];
      WroteNothing(p);
      while |rest| > 0
        invariant Valid() && ring.all == old(ring.all) + mine
        invariant Concat(mine) + rest == p && CutToSize(mine)
        invariant attached == old(attached) && gen == old(gen)
        invariant Wrote(Abs(), ch, Cuts(rest), met, turn) == Wrote(old(Abs()), ch, Cuts(p), met, 0)
        invariant Ends(attached, Cuts(rest), met, turn) == Ends(old(attached), Cuts(p), met, 0)
        decreases |rest|
      {
        var n := |rest|;
        if n > MAX_CHUNK_BYTES {
          n := MAX_CHUNK_BYTES;
        }
        CutsFirst(rest, n);
        WroteTurn(Abs(), ch, Cuts(rest), met, turn);
        var f, live, g := Begin(ch, rest[..n]);
        WroteMore(mine, f, rest, n);
        mine := mine + [f];
        rest := rest[n..];
        if live {
          var done := Select(met(turn), g, f);
          if done {
            return false, mine;
          }
        }
        turn := turn + 1;
      }
      WroteAll(Abs(), ch, rest, met, turn);
      return true, mine;
    }
  }

  // ---- What a write does to the shared state ----

  function Selected(s: Console.Shared, m: Met, g: nat, f: Frame): Console.Shared {
    if m.Room? then Console.Delivered(s, g, f) else s
  }

  /** The bytes in chunks of at most MAX_CHUNK_BYTES, all but the last of that size. */
  function Cuts(p: seq<byte>): seq<seq<byte>> {
    if p == [] then [] else
    var n := if |p| > MAX_CHUNK_BYTES then MAX_CHUNK_BYTES else |p|;
    [p[..n]] + Cuts(p[n..])
  }

  /** The session's end is met on the way. */
  predicate Ends(live: bool, chunks: seq<seq<byte>>, met: nat -> Met, turn: nat)
    decreases |chunks|
  {
    chunks != [] && ((live && met(turn).SessionDone?) || Ends(live, chunks[1..], met, turn + 1))
  }

  /** Chunk after chunk: numbered and kept; then, while attached, sent if the channel has room; and no
      more once the session's end is met. */
  function Wrote(s: Console.Shared, ch: Channel, chunks: seq<seq<byte>>, met: nat -> Met, turn: nat): Console.Shared
    decreases |chunks|
  {
    if chunks == [] then s else
    var s1 := Console.Pushed(s, ch, chunks[0]);
    if !s.attached then Wrote(s1, ch, chunks[1..], met, turn + 1) else
    var s2 := Selected(s1, met(turn), s.gen, Frame(ch, |s.all| + 1, chunks[0]));
    if met(turn).SessionDone? then s2 else Wrote(s2, ch, chunks[1..], met, turn + 1)
  }

  lemma CutsFirst(p: seq<byte>, n: nat)
    requires p != [] && n == if |p| > MAX_CHUNK_BYTES then MAX_CHUNK_BYTES else |p|
    ensures Cuts(p) != [] && Cuts(p)[0] == p[..n] && Cuts(p)[1..] == Cuts(p[n..])
  {
  }

  lemma WroteTurn(s: Console.Shared, ch: Channel, chunks: seq<seq<byte>>, met: nat -> Met, turn: nat)
    requires chunks != []
    ensures var s1 := Console.Pushed(s, ch, chunks[0]);
            var s2 := Selected(s1, met(turn), s.gen, Frame(ch, |s.all| + 1, chunks[0]));
            && Wrote(s, ch, chunks, met, turn)
               == (if !s.attached then Wrote(s1, ch, chunks[1..], met, turn + 1)
                   else if met(turn).SessionDone? then s2 else Wrote(s2, ch, chunks[1..], met, turn + 1))
            && s1.attached == s.attached == s2.attached && s1.gen == s.gen == s2.gen
            && Ends(s.attached, chunks, met, turn)
               == ((s.attached && met(turn).SessionDone?) || Ends(s.attached, chunks[1..], met, turn + 1))
  {
    hide Trim;
  }

  lemma WroteAll(s: Console.Shared, ch: Channel, rest: seq<byte>, met: nat -> Met, turn: nat)
    requires rest == []
    ensures Wrote(s, ch, Cuts(rest), met, turn) == s && !Ends(s.attached, Cuts(rest), met, turn)
  {
  }

  // ---- What reaches the live channel ----

  /** The frames of chunks, numbered from the n-th on. */
  ghost function FramesOf(n: nat, ch: Channel, chunks: seq<seq<byte>>): seq<Frame>
    decreases |chunks|
  {
    if chunks == [] then [] else [Frame(ch, n + 1, chunks[0])] + FramesOf(n + 1, ch, chunks[1..])
  }

  /** Those among them whose turn met room. */
  ghost function Roomed(frames: seq<Frame>, met: nat -> Met, turn: nat): seq<Frame> {
    if frames == [] then []
    else (if met(turn).Room? then [frames[0]] else []) + Roomed(frames[1..], met, turn + 1)
  }

  /** How many chunks are taken up: all, or up to the one that met the session's end. */
  ghost function TakenUp(live: bool, chunks: seq<seq<byte>>, met: nat -> Met, turn: nat): nat
    decreases |chunks|
  {
    if chunks == [] then 0
    else if live && met(turn).SessionDone? then 1
    else 1 + TakenUp(live, chunks[1..], met, turn + 1)
  }

  lemma {:induction false} TakenBound(live: bool, chunks: seq<seq<byte>>, met: nat -> Met, turn: nat)
    ensures TakenUp(live, chunks, met, turn) <= |chunks|
    ensures !Ends(live, chunks, met, turn) ==> TakenUp(live, chunks, met, turn) == |chunks|
    decreases |chunks|
  {
    if chunks != [] {
      TakenBound(live, chunks[1..], met, turn + 1);
    }
  }

  /** A write keeps its frames, in order and numbered on, up to the session's end. While attached, the
      live channel gets exactly those whose turn met room, in order, and nothing otherwise; every
      other channel stays as it was. */
  lemma {:induction false} WriteLaw(s: Console.Shared, ch: Channel, chunks: seq<seq<byte>>, met: nat -> Met, turn: nat)
    ensures var s', k := Wrote(s, ch, chunks, met, turn), TakenUp(s.attached, chunks, met, turn);
            k <= |chunks| &&
            var frames := FramesOf(|s.all|, ch, chunks[..k]);
            && s'.all == s.all + frames && s'.attached == s.attached && s'.gen == s.gen && s'.max == s.max
            && Console.Queued(s', s.gen)
               == Console.Queued(s, s.gen) + (if s.attached then Roomed(frames, met, turn) else [])
            && (forall g | g != s.gen :: Console.Queued(s', g) == Console.Queued(s, g))
    decreases |chunks|
  {
    hide Trim, Wrote, Selected, Console.Queued;
    TakenBound(s.attached, chunks, met, turn);
    if chunks == [] {
      assert chunks[..0] == [] && FramesOf(|s.all|, ch, []) == [];
      WroteNone(s, ch, met, turn);
    } else {
      var f, m, rest := Frame(ch, |s.all| + 1, chunks[0]), met(turn), chunks[1..];
      var s1 := Console.Pushed(s, ch, chunks[0]);
      var s2 := Selected(s1, m, s.gen, f);
      WroteTurn(s, ch, chunks, met, turn);
      OneSent(s, s1, m, f);
      var k := TakenUp(s.attached, chunks, met, turn);
      assert chunks[..k][1..] == rest[..k - 1] && chunks[..k][0] == chunks[0];
      if s.attached && m.SessionDone? {
        assert rest[..0] == [] && FramesOf(|s.all| + 1, ch, []) == [];
        assert FramesOf(|s.all|, ch, chunks[..1]) == [f] + [] == [f];
        assert [f][1..] == [] && Roomed([f], met, turn) == [] + Roomed([], met, turn + 1);
        assert Console.Queued(s, s.gen) + [] == Console.Queued(s, s.gen);
      } else {
        var s3 := if s.attached then s2 else s1;
        WriteLaw(s3, ch, rest, met, turn + 1);
        MoreSent(s, s3, Wrote(s3, ch, rest, met, turn + 1), f, FramesOf(|s.all| + 1, ch, rest[..k - 1]), met, turn);
      }
    }
  }

  lemma WroteNone(s: Console.Shared, ch: Channel, met: nat -> Met, turn: nat)
    ensures Wrote(s, ch, [], met, turn) == s
    ensures s.all + [] == s.all && Console.Queued(s, s.gen) + [] == Console.Queued(s, s.gen)
  {
  }

  /** One turn: the frame at the end of all, and at the end of the channel if there was room. */
  lemma OneSent(s: Console.Shared, s1: Console.Shared, m: Met, f: Frame)
    requires s1.queues == s.queues && s1.gen == s.gen
    ensures var s2 := Selected(s1, m, s.gen, f);
            && s2.all == s1.all && s2.max == s1.max
            && Console.Queued(s2, s.gen) == Console.Queued(s, s.gen) + (if m.Room? then [f] else [])
            && (forall g :: Console.Queued(s1, g) == Console.Queued(s, g))
            && (forall g | g != s.gen :: Console.Queued(s2, g) == Console.Queued(s, g))
  {
  }

  lemma MoreSent(s: Console.Shared, s3: Console.Shared, s': Console.Shared, f: Frame, more: seq<Frame>, met: nat -> Met,
                 turn: nat)
    requires s3.all == s.all + [f] && s'.all == s3.all + more
    requires Console.Queued(s3, s.gen)
             == Console.Queued(s, s.gen) + (if s.attached && met(turn).Room? then [f] else [])
    requires Console.Queued(s', s.gen)
             == Console.Queued(s3, s.gen) + (if s.attached then Roomed(more, met, turn + 1) else [])
    ensures s'.all == s.all + ([f] + more)
    ensures Console.Queued(s', s.gen)
            == Console.Queued(s, s.gen) + (if s.attached then Roomed([f] + more, met, turn) else [])
  {
    hide Console.Queued;
    assert ([f] + more)[1..] == more;
    var q, one := Console.Queued(s, s.gen), if met(turn).Room? then [f] else [];
    if s.attached {
      Assoc(q, one, Roomed(more, met, turn + 1));
    }
  }

  // ---- A write is a run of the protocol ----

  function EventFor(m: Met, err: bool): Console.Event {
    match m
    case Room => Console.Deliver(err)
    case RetiredChannel => Console.LetGo(err)
    case SessionDone => Console.Abandon(err)
  }

  lemma PushFacts(c: Console.Console, err: bool, ch: Channel, chunk: seq<byte>)
    requires Console.Can(c, Console.Push(err, ch, chunk))
    ensures Console.Next(c, Console.Push(err, ch, chunk)).s == Console.Pushed(c.s, ch, chunk)
  {
    hide Trim;
  }

  /** One turn of the writer, with any events of others between its locked step and its send: a Push,
      and then what the select met. The object's Begin and Select do the same to what they share. */
  lemma TurnRuns(c: Console.Console, err: bool, ch: Channel, chunk: seq<byte>, others: seq<Console.Event>,
                 c2: Console.Console, m: Met)
    returns (d: Console.Console)
    requires Console.Can(c, Console.Push(err, ch, chunk)) && c.s.attached
    requires var c1 := Console.Next(c, Console.Push(err, ch, chunk));
             Console.Reaches(c1, others, c2) && Console.Hand(c2, err) == Console.Hand(c1, err)
    requires Console.Can(c2, EventFor(m, err))
    ensures Console.Reaches(c, [Console.Push(err, ch, chunk)] + (others + [EventFor(m, err)]), d)
    ensures d.s == Selected(c2.s, m, c.s.gen, Frame(ch, |c.s.all| + 1, chunk)) && Console.Hand(d, err).Idle?
    ensures Console.Next(c, Console.Push(err, ch, chunk)).s == Console.Pushed(c.s, ch, chunk)
    ensures d == Console.Next(c2, EventFor(m, err))
  {
    hide Trim, Console.Reaches;
    var push, last := Console.Push(err, ch, chunk), EventFor(m, err);
    var c1 := Console.Next(c, push);
    d := Console.Next(c2, last);
    Console.Nowhere(d);
    Console.Then(c2, last, [], d, [last]);
    Console.Onward(c1, others, c2, [last], d);
    Console.Then(c, push, others + [last], d, [push] + (others + [last]));
  }

  /** What the select meets is possible in the protocol, turn by turn. */
  ghost predicate Possible(c: Console.Console, err: bool, ch: Channel, chunks: seq<seq<byte>>, met: nat -> Met,
                           turn: nat)
    decreases |chunks|
  {
    chunks == [] ||
    (&& Console.Can(c, Console.Push(err, ch, chunks[0]))
     && var c1 := Console.Next(c, Console.Push(err, ch, chunks[0]));
     && (if !c.s.attached then Possible(c1, err, ch, chunks[1..], met, turn + 1)
         else
           && Console.Can(c1, EventFor(met(turn), err))
           && (met(turn).SessionDone? ||
               Possible(Console.Next(c1, EventFor(met(turn), err)), err, ch, chunks[1..], met, turn + 1))))
  }

  /** A whole write is a run of the protocol: for each chunk a Push and, while attached, what its select
      met. It ends with the shared state that the object has. */
  lemma {:induction false} WriteRuns(c: Console.Console, err: bool, ch: Channel, chunks: seq<seq<byte>>,
                                     met: nat -> Met, turn: nat)
    returns (events: seq<Console.Event>, d: Console.Console)
    requires Possible(c, err, ch, chunks, met, turn)
    ensures Console.Reaches(c, events, d) && d.s == Wrote(c.s, ch, chunks, met, turn)
    decreases |chunks|
  {
    hide Trim, Console.Reaches, Selected;
    if chunks == [] {
      events, d := [], c;
      Console.Nowhere(c);
    } else {
      var push := Console.Push(err, ch, chunks[0]);
      var c1 := Console.Next(c, push);
      PushFacts(c, err, ch, chunks[0]);
      if !c.s.attached {
        var more, d1 := WriteRuns(c1, err, ch, chunks[1..], met, turn + 1);
        events, d := [push] + more, d1;
        Console.Then(c, push, more, d, events);
      } else {
        Console.Nowhere(c1);
        var c2 := TurnRuns(c, err, ch, chunks[0], [], c1, met(turn));
        var first := [push] + ([] + [EventFor(met(turn), err)]);
        if met(turn).SessionDone? {
          events, d := first, c2;
        } else {
          var e := EventFor(met(turn), err);
          var more, d1 := WriteRuns(Console.Next(c1, e), err, ch, chunks[1..], met, turn + 1);
          events, d := first + more, d1;
          Console.Onward(c, first, c2, more, d);
        }
      }
    }
  }

  ghost predicate CutToSize(frames: seq<Frame>) {
    forall f | f in frames :: 0 < |f.chunk| <= MAX_CHUNK_BYTES
  }

  lemma WroteNothing(p: seq<byte>)
    ensures Concat([]) + p == p && CutToSize([])
  {
  }

  lemma WroteMore(mine: seq<Frame>, f: Frame, rest: seq<byte>, n: nat)
    requires CutToSize(mine) && 0 < n <= |rest| && n <= MAX_CHUNK_BYTES && f.chunk == rest[..n]
    ensures Concat(mine + [f]) + rest[n..] == Concat(mine) + rest && CutToSize(mine + [f])
  {
    ConcatSnoc(mine, f);
    assert rest == rest[..n] + rest[n..];
    Assoc(Concat(mine), rest[..n], rest[n..]);
  }
}
