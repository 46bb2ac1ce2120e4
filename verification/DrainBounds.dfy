/** How many references a drained queue can come to hold: the queue's cap and the drain's envelope
    together. */
module DrainBounds {
  import opened QueueModel
  import opened QueueTheorems
  import opened QueueLaws
  import opened Flight
  import opened Drain

  /** The largest batch size a run asks for. */
  ghost function Largest(events: seq<Drain.Event>): nat {
    if events == [] then 0 else
    var rest := Largest(events[1..]);
    if events[0].Begin? && events[0].n > rest then events[0].n else rest
  }

  /** Until the queue closes, its peak is within the old one or the envelope of batches up to b. */
  ghost predicate Enveloped(s: Session, before: nat, b: nat) {
    && (s.at.Waiting? || s.at.Clear? ==> s.at.n <= b)
    && (!s.q.closed ==> s.q.led.peak <= before || s.q.led.peak <= MAX_INFLIGHT_BATCHES * b)
  }

  lemma CallStill(q: Queue, op: Op)
    requires Allowed(q, op) && !op.DoDequeue? && !op.DoRestart?
    ensures (q.closed ==> Do(q, op).closed) && Do(q, op).led.peak == q.led.peak
  {
    hide Do, Allowed;
    OthersShrinkFlight(q, op);
  }

  lemma SettleStill(q: Queue, at: Place)
    requires Settling(at)
    ensures var (q', at') := SettleStep(q, at);
            && (q.closed ==> q'.closed) && q'.led.peak == q.led.peak && !at'.Waiting? && !at'.Clear?
  {
    hide Nack, Ack, Drop;
    match at
    case Untried(untried, _, _, _) => NackFlight(q, untried, NackUntried);
    case Failing(failed, _, _) => NackFlight(q, [failed], NackFailed);
    case Acking(sent, terminal, _, _) => AckFlight(q, sent + terminal);
    case Delivered(sent, _) => NackFlight(q, sent, NackDelivered);
    case Dropping(terminal) => DropFlight(q, terminal);
  }

  lemma PullPlace(s: Session, checks: nat, now: int, says: nat -> Verdict)
    requires s.at.Clear?
    ensures var at := AfterPull(s, checks, now, says).at; !at.Waiting? && (at.Clear? ==> at == s.at)
  {
    hide Dequeue, Walk;
  }

  /** Every event keeps the session within the envelope of its batches. */
  lemma NextEnveloped(s: Session, e: Drain.Event, p: nat, b: nat)
    requires Can(s, e) && Safe(s) && Enveloped(s, p, b) && (e.Begin? ==> e.n <= b)
    ensures Enveloped(Drain.Next(s, e), p, b)
  {
    hide Safe, Good, Do, Allowed, SettleStep, AfterPull, Nack, PeakWithin;
    match e
    case Other(op) => CallStill(s.q, op);
    case SettleNext => SettleStill(s.q, s.at);
    case Sweep => NackFlight(s.q, s.at.ids, NackSessionEnd);
    case Pull(checks, now, says) =>
      PullPlace(s, checks, now, says);
      PullEnveloped(s, checks, now, says, p, b);
    case _ =>
  }

  lemma PullEnveloped(s: Session, checks: nat, now: int, says: nat -> Verdict, p: nat, b: nat)
    requires s.at.Clear? && Safe(s) && Enveloped(s, p, b)
    ensures var q' := AfterPull(s, checks, now, says).q;
            !q'.closed ==> q'.led.peak <= p || q'.led.peak <= MAX_INFLIGHT_BATCHES * b
  {
    hide Safe, AfterPull;
    PullBound(s, checks, now, says);
  }

  lemma {:induction false} RunEnveloped(s: Session, events: seq<Drain.Event>, t: Session, p: nat, b: nat)
    requires Reaches(s, events, t) && Safe(s) && Enveloped(s, p, b) && Largest(events) <= b
    ensures Enveloped(t, p, b) && Safe(t)
    decreases |events|
  {
    hide Safe, Drain.Next, Can, Enveloped;
    if events != [] {
      NextSafe(s, events[0]);
      NextEnveloped(s, events[0], p, b);
      RunEnveloped(Drain.Next(s, events[0]), events[1..], t, p, b);
    }
  }

  /** Over every run of sessions from a queue with nothing in flight, until it closes: the live WAL
      references, queued or in flight, never number more than the reference cap plus twice the
      largest batch, or plus the peak the run began with. */
  lemma DrainCapLaw(q: Queue, acks: bool, events: seq<Drain.Event>, t: Session)
    requires Good(q) && q.inflight == map[] && Reaches(FirstSession(q, acks), events, t)
    ensures var envelope := MAX_INFLIGHT_BATCHES * Largest(events);
            !t.q.closed ==>
              |t.q.refs| + |FlightRefs(t.q.inflight)|
              <= Slots(DiskBudget(t.q.cfg)) + if q.led.peak > envelope then q.led.peak else envelope
  {
    hide Good, Reaches, Largest, Safe, FlightRefs, Slots;
    FirstSafe(q, acks);
    RunEnveloped(FirstSession(q, acks), events, t, q.led.peak, Largest(events));
    SafeCap(t);
  }

  lemma SafeCap(t: Session)
    requires Safe(t)
    ensures |t.q.refs| + |FlightRefs(t.q.inflight)| <= Slots(DiskBudget(t.q.cfg)) + t.q.led.peak
  {
    hide FlightRefs, Slots;
    GoodCap(t.q);
  }

  lemma GoodCap(q: Queue)
    requires Good(q)
    ensures |q.refs| + |FlightRefs(q.inflight)| <= Slots(DiskBudget(q.cfg)) + q.led.peak
  {
    hide FlightRefs, Slots;
    ClaimCapLaw(q);
  }
}
