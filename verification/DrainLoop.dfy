/** The drain worker's own code, over the queue object. */
module DrainLoop {
  import opened Bytes
  import opened WalCodec
  import opened QueueModel
  import opened QueueTheorems
  import opened BufferedQueues
  import opened Flight
  import opened Drain

  function PlaceAfter(res: Outcome, ending: bool): Place {
    if res.Done? && !ending then Looping else Ended
  }

  /** settleDeliveredNacks, settleNacks and settleUntriedNacks: nothing to do for no ids. */
  method SettleNacks(q: BufferedQueue, ids: seq<Id>, kind: NackKind)
    requires q.Valid()
    modifies q, q.disk
    ensures q.Valid()
    ensures q.Abs() == if ids == [] then old(q.Abs()) else Nack(old(q.Abs()), ids, kind).0
  {
    if |ids| == 0 {
      return;
    }
    var _ := q.Nack(ids, kind);
  }

  method SettleDrops(q: BufferedQueue, ids: seq<Id>)
    requires q.Valid()
    modifies q, q.disk
    ensures q.Valid()
    ensures q.Abs() == if ids == [] then old(q.Abs()) else Drop(old(q.Abs()), ids).0
  {
    if |ids| == 0 {
      return;
    }
    var _ := q.Drop(ids);
  }

  /** settleAcks: two attempts at the acks, then by hand. */
  method SettleAcks(q: BufferedQueue, sent: seq<Id>, terminal: seq<Id>, ghost ending: bool) returns (res: Outcome)
    requires q.Valid()
    modifies q, q.disk
    ensures q.Valid()
    ensures (q.Abs(), PlaceAfter(res, ending)) == Finish(old(q.Abs()), Acking(sent, terminal, 0, ending))
    ensures !q.closed ==> forall id | id in sent || id in terminal :: id !in q.inflight
  {
    hide Ack, Nack, Drop, Finish, SettleStep;
    var ids := sent + terminal;
    if |ids| == 0 {
      FinishNothing(q.Abs(), sent, terminal, ending);
      return Done;
    }
    var attempt := 0;
    while attempt < MAX_ACK_ATTEMPTS
      invariant attempt <= MAX_ACK_ATTEMPTS && q.Valid()
      invariant Finish(q.Abs(), Acking(sent, terminal, attempt, ending))
                == Finish(old(q.Abs()), Acking(sent, terminal, 0, ending))
    {
      FinishAcking(q.Abs(), sent, terminal, attempt, ending);
      AckFlight(q.Abs(), ids);
      res := q.Ack(ids);
      if res.Done? || res.Refused? {
        return;
      }
      attempt := attempt + 1;
    }
    FinishByHand(q.Abs(), sent, terminal, attempt, ending);
    SettleByHand(q, sent, terminal);
    return Error;
  }

  /** What settleAcks does when the acks cannot be recorded: deliveries go back, the rest is dropped. */
  method SettleByHand(q: BufferedQueue, sent: seq<Id>, terminal: seq<Id>)
    requires q.Valid()
    modifies q, q.disk
    ensures q.Valid()
    ensures q.Abs() == ByHand(old(q.Abs()), sent, terminal)
    ensures !q.closed ==> forall id | id in sent || id in terminal :: id !in q.inflight
  {
    hide Nack, Drop;
    NackFlight(q.Abs(), sent, NackDelivered);
    SettleNacks(q, sent, NackDelivered);
    DropFlight(q.Abs(), terminal);
    SettleDrops(q, terminal);
  }

  function ByHand(q: Queue, sent: seq<Id>, terminal: seq<Id>): Queue {
    var q1 := if sent == [] then q else Nack(q, sent, NackDelivered).0;
    if terminal == [] then q1 else Drop(q1, terminal).0
  }

  lemma FinishStep(q: Queue, at: Place)
    requires Settling(at)
    ensures Finish(q, at) == Finish(SettleStep(q, at).0, SettleStep(q, at).1)
  {
  }

  lemma FinishAcking(q: Queue, sent: seq<Id>, terminal: seq<Id>, tries: nat, ending: bool)
    requires sent + terminal != [] && tries < MAX_ACK_ATTEMPTS
    ensures var (q', res) := Ack(q, sent + terminal);
            Finish(q, Acking(sent, terminal, tries, ending))
            == if res.Error? then Finish(q', Acking(sent, terminal, tries + 1, ending))
               else (q', PlaceAfter(res, ending))
  {
    hide Ack, Nack, Drop, Finish;
    var (q', res) := Ack(q, sent + terminal);
    FinishStep(q, Acking(sent, terminal, tries, ending));
    if !res.Error? {
      FinishIdle(q', PlaceAfter(res, ending));
    }
  }

  lemma FinishNothing(q: Queue, sent: seq<Id>, terminal: seq<Id>, ending: bool)
    requires sent + terminal == []
    ensures Finish(q, Acking(sent, terminal, 0, ending)) == (q, PlaceAfter(Done, ending))
  {
    hide Ack, Nack, Drop, Finish;
    FinishStep(q, Acking(sent, terminal, 0, ending));
    FinishIdle(q, PlaceAfter(Done, ending));
  }

  lemma FinishByHand(q: Queue, sent: seq<Id>, terminal: seq<Id>, tries: nat, ending: bool)
    requires sent + terminal != [] && tries >= MAX_ACK_ATTEMPTS
    ensures Finish(q, Acking(sent, terminal, tries, ending)) == (ByHand(q, sent, terminal), Ended)
  {
    hide Ack, Nack, Drop, Finish;
    var q1 := if sent == [] then q else Nack(q, sent, NackDelivered).0;
    FinishStep(q, Acking(sent, terminal, tries, ending));
    FinishStep(q, Delivered(sent, terminal));
    FinishStep(q1, Dropping(terminal));
    FinishIdle(SettleStep(q1, Dropping(terminal)).0, Ended);
  }

  /** What one turn of the loop does to the queue, and whether the loop goes on. */
  function Turn(q: Queue, n: nat, acks: bool, checks: nat, now: int, says: nat -> Verdict): (Queue, Place) {
    var s := AfterPull(Session(q, acks, Clear(n), {}), checks, now, says);
    Finish(s.q, s.at)
  }

  /** The failed send: untried items back first, then the failed one, then the rest is settled. */
  method SettleFailure(q: BufferedQueue, items: seq<Item>, idx: nat, sent: seq<Id>, terminal: seq<Id>)
    requires q.Valid() && idx < |items|
    modifies q, q.disk
    ensures q.Valid()
    ensures (q.Abs(), Ended) == Finish(old(q.Abs()), Untried(IdSeq(items[idx + 1..]), items[idx].id, sent, terminal))
  {
    hide Ack, Nack, Drop, Finish;
    var untried: seq<Id> := [];
    var j := idx + 1;
    while j < |items|
      invariant idx + 1 <= j <= |items|
      invariant untried == IdSeq(items[idx + 1..j])
    {
      untried := untried + [items[j].id];
      j := j + 1;
    }
    assert items[idx + 1..j] == items[idx + 1..];
    ghost var was := q.Abs();
    FinishStep(was, Untried(untried, items[idx].id, sent, terminal));
    SettleNacks(q, untried, NackUntried);
    FinishStep(q.Abs(), Failing(items[idx].id, sent, terminal));
    SettleNacks(q, [items[idx].id], NackFailed);
    var _ := SettleAcks(q, sent, terminal, true);
  }

  /** The walk over a batch, and its settlement. `more`: the loop goes on. */
  method DrainBatch(q: BufferedQueue, items: seq<Item>, acks: bool, says: nat -> Verdict) returns (more: bool)
    requires q.Valid()
    modifies q, q.disk
    ensures q.Valid()
    ensures (q.Abs(), if more then Looping else Ended) == BatchTurn(old(q.Abs()), items, acks, says)
  {
    hide Finish, Walk, Settlement;
    var sent, terminal: seq<Id> := [], [];
    var i := 0;
    while i < |items|
      invariant i <= |items| && q.Valid() && q.Abs() == old(q.Abs())
      invariant Walk(items, says, i, sent, terminal) == Walk(items, says, 0, [], [])
    {
      WalkStep(items, says, i, sent, terminal);
      match says(i) {
        case Undeliverable =>
          terminal := terminal + [items[i].id];
        case Sends =>
          sent := sent + [items[i].id];
        case Fails =>
          FailedTurn(q.Abs(), items, acks, says, i, sent, terminal);
          SettleFailure(q, items, i, if acks then [] else sent, terminal);
          return false;
      }
      i := i + 1;
    }
    WalkStep(items, says, i, sent, terminal);
    WalkedTurn(q.Abs(), items, acks, says, sent, terminal);
    var settled := SettleAcks(q, if acks then [] else sent, terminal, false);
    return settled.Done?;
  }

  /** One turn of drainBufferedQueue from the dequeue on. `more`: the loop goes on. */
  method DrainTurn(q: BufferedQueue, n: nat, acks: bool, checks: nat, now: int, says: nat -> Verdict)
    returns (more: bool)
    requires q.Valid()
    modifies q, q.disk
    ensures q.Valid()
    ensures q.Abs() == Turn(old(q.Abs()), n, acks, checks, now, says).0
    ensures more <==> !Turn(old(q.Abs()), n, acks, checks, now, says).1.Ended?
  {
    hide Dequeue, Turn, BatchTurn;
    PulledTurn(q.Abs(), n, acks, checks, now, says);
    var res := q.DequeueBatch(n, checks, now);
    if !res.Batch? {
      return res.Parked? || res.Drained?;
    }
    more := DrainBatch(q, res.items, acks, says);
  }

  /** A batch walked and settled with nobody else at the queue. */
  function BatchTurn(q: Queue, items: seq<Item>, acks: bool, says: nat -> Verdict): (Queue, Place) {
    WalkBounds(items, says, 0, [], []);
    Finish(q, Settlement(items, Walk(items, says, 0, [], []), acks))
  }

  lemma FailedTurn(q: Queue, items: seq<Item>, acks: bool, says: nat -> Verdict, i: nat, sent: seq<Id>,
                   terminal: seq<Id>)
    requires i < |items| && Walk(items, says, 0, [], []) == Walked(sent, terminal, Some(i))
    ensures BatchTurn(q, items, acks, says)
            == Finish(q, Untried(IdSeq(items[i + 1..]), items[i].id, if acks then [] else sent, terminal))
  {
    hide Walk, Finish, IdSeq;
  }

  lemma WalkedTurn(q: Queue, items: seq<Item>, acks: bool, says: nat -> Verdict, sent: seq<Id>, terminal: seq<Id>)
    requires Walk(items, says, 0, [], []) == Walked(sent, terminal, None)
    ensures BatchTurn(q, items, acks, says) == Finish(q, Acking(if acks then [] else sent, terminal, 0, false))
  {
    hide Walk, Finish;
  }

  lemma PulledTurn(q: Queue, n: nat, acks: bool, checks: nat, now: int, says: nat -> Verdict)
    ensures var (q', res) := Dequeue(q, n, checks, now);
            Turn(q, n, acks, checks, now, says)
            == match res
               case Batch(items) => BatchTurn(q', items, acks, says)
               case Parked => (q', Clear(n))
               case Drained => (q', Looping)
               case _ => (q', Ended)
  {
    hide Dequeue, Finish, Walk, Settlement;
    var (q', res) := Dequeue(q, n, checks, now);
    FinishIdle(q', Clear(n));
    FinishIdle(q', Looping);
    FinishIdle(q', Ended);
  }

  lemma FinishIdle(q: Queue, at: Place)
    requires !Settling(at)
    ensures Finish(q, at) == (q, at)
  {
  }

  lemma WalkStep(items: seq<Item>, says: nat -> Verdict, i: nat, sent: seq<Id>, terminal: seq<Id>)
    requires i <= |items|
    ensures Walk(items, says, i, sent, terminal)
            == if i == |items| then Walked(sent, terminal, None) else
               match says(i)
               case Undeliverable => Walk(items, says, i + 1, sent, terminal + [items[i].id])
               case Sends => Walk(items, says, i + 1, sent + [items[i].id], terminal)
               case Fails => Walked(sent, terminal, Some(i))
  {
  }

  /** A turn alone at the queue, from nothing in flight, leaves nothing in flight without delivery
      acks and only what it sent with them, however it ended, unless the queue is closed. */
  lemma TurnLaw(q: Queue, n: nat, acks: bool, checks: nat, now: int, says: nat -> Verdict)
    requires q.inflight == map[] && n > 0
    requires Good(q)
    ensures var (q', at) := Turn(q, n, acks, checks, now, says);
            var sent := AfterPull(Session(q, acks, Clear(n), {}), checks, now, says).sent;
            && Good(q') && (at.Looping? || at.Ended? || at.Clear?)
            && (!q'.closed ==> q'.inflight.Keys <= if acks then sent else {})
  {
    hide Good, Finish, AfterPull;
    var s := Session(q, acks, Clear(n), {});
    PullSafe(s, checks, now, says);
    AfterPullPlace(s, checks, now, says);
    var s1 := AfterPull(s, checks, now, says);
    if Settling(s1.at) {
      FinishFlies(s1.q, s1.at, if acks then s1.sent else {});
    } else {
      FinishIdle(s1.q, s1.at);
    }
  }

  lemma AfterPullPlace(s: Session, checks: nat, now: int, says: nat -> Verdict)
    requires s.at.Clear?
    ensures var s1 := AfterPull(s, checks, now, says);
            s1.acks == s.acks && (Settling(s1.at) || s1.at.Looping? || s1.at.Clear? || s1.at.Ended?)
  {
    hide Dequeue, Walk;
  }

  /** The end of a session: under delivery acks everything still in flight goes back, uncharged. */
  method EndSession(q: BufferedQueue, acks: bool, now: int) returns (ids: seq<Id>)
    requires q.Valid()
    modifies q, q.disk
    ensures q.Valid()
    ensures !acks || old(q.closed) ==> q.Abs() == old(q.Abs())
    ensures acks && !old(q.closed) ==>
              && (forall id :: id in ids <==> id in old(q.inflight))
              && q.Abs() == (if ids == [] then old(q.Abs()) else Nack(old(q.Abs()), ids, NackSessionEnd).0)
              && q.inflight.Keys == {}
  {
    hide Nack;
    ids := [];
    if acks {
      ghost var was := q.Abs();
      var _, swept := q.SweepInflight(0, now, NackSessionEnd);
      ids := swept;
      NackFlight(was, ids, NackSessionEnd);
    }
  }
}
