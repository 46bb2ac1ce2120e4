/** The two-tier queue as a value and its operations as functions. The fields mirror
    bufferedQueue; `hand*` hold what a locked operation has taken out of one place and not yet
    put in another; `led` is history kept for the proofs and read by no operation. */
module QueueModel {
  import opened Bytes
  import opened WalCodec
  import opened Wal
  import opened SpillDisk

  const AVG_ITEM: int := 4096
  const MAX_ATTEMPTS: int := 6
  const DEFAULT_DISK: int := 0x2000_0000

  /** maxMemory is positive and maxDisk not negative: New refuses anything else. */
  datatype Config = Config(maxMemory: int, maxDisk: int)

  function Slots(bytes: int): nat {
    if bytes / AVG_ITEM < 1 then 1 else bytes / AVG_ITEM
  }

  function DiskBudget(c: Config): int {
    if c.maxDisk <= 0 then DEFAULT_DISK else c.maxDisk
  }

  function ItemSize(item: Item): nat {
    |item.payload| + |item.id| + 32
  }

  /** A dequeued item awaiting ack or nack; a disk-sourced one keeps its reference only. */
  datatype Entry = MemEntry(item: Item, since: int) | RefEntry(ref: DiskRef, since: int)

  datatype Loc = Loc(segment: nat, offset: nat)

  /** seen: every id ever accepted, in any process life. accepted .. lost: this life's items by
      fate. durable: ids whose ack record was ever written. stale: ids a replay would return that
      the queue no longer holds. loc: where each live disk item's record is. start, charges: the
      attempts an item came with and the attempts charged since. peak: most items in flight. */
  datatype Ledger = Ledger(
    seen: set<Id>,
    accepted: set<Id>, acked: set<Id>, dropped: set<Id>, unrecorded: set<Id>, lost: set<Id>,
    durable: set<Id>, stale: set<Id>, loc: map<Id, Loc>,
    start: map<Id, int>, charges: map<Id, nat>, peak: nat)

  datatype Queue = Queue(
    cfg: Config,
    mem: seq<Item>, memBytes: int, memCount: int,
    refs: seq<DiskRef>, diskCount: int,
    claims: map<nat, int>, lowest: nat, underflows: nat,
    inflight: map<Id, Entry>,
    handRefs: seq<DiskRef>, handItems: seq<Item>,
    store: Option<Disk>,
    droppedTotal: nat, unrecordedTotal: nat, closed: bool,
    led: Ledger)

  // ---- Memory tier ----

  predicate CanAccept(q: Queue, size: int) {
    q.memBytes + size <= q.cfg.maxMemory && |q.mem| < Slots(q.cfg.maxMemory)
  }

  function Put(q: Queue, item: Item): Queue {
    q.(mem := q.mem + [item], memBytes := q.memBytes + ItemSize(item), memCount := q.memCount + 1)
  }

  function Take(q: Queue): Queue
    requires q.mem != []
  {
    q.(mem := q.mem[1..], memBytes := q.memBytes - ItemSize(q.mem[0]), memCount := q.memCount - 1)
  }

  function Reverse(s: seq<Item>): seq<Item> {
    if s == [] then [] else Reverse(s[1..]) + [s[0]]
  }

  function SumSizes(s: seq<Item>): nat {
    if s == [] then 0 else SumSizes(s[..|s| - 1]) + ItemSize(s[|s| - 1])
  }

  /** enqueueFrontUnlocked: the item, then what was there, put back last first. */
  function PutFront(q: Queue, item: Item): Queue {
    q.(mem := [item] + Reverse(q.mem), memBytes := q.memBytes + ItemSize(item), memCount := q.memCount + 1)
  }

  // ---- Segment claims ----

  function Claim(q: Queue, segment: nat): int {
    if segment in q.claims then q.claims[segment] else 0
  }

  function AddRef(q: Queue, ref: DiskRef): Queue {
    q.(refs := q.refs + [ref], diskCount := q.diskCount + 1,
       claims := q.claims[ref.segment := Claim(q, ref.segment) + 1],
       led := q.led.(loc := q.led.loc[ref.id := Loc(ref.segment, ref.offset)]))
  }

  function Release(q: Queue, ref: DiskRef): Queue {
    var q1 := q.(led := q.led.(loc := q.led.loc - {ref.id}));
    var count := Claim(q, ref.segment);
    if count <= 0 then q1.(underflows := q.underflows + 1, claims := q.claims - {ref.segment})
    else if count == 1 then q1.(claims := q.claims - {ref.segment})
    else q1.(claims := q.claims[ref.segment := count - 1])
  }

  predicate RefsFull(q: Queue) {
    |q.refs| >= Slots(DiskBudget(q.cfg))
  }

  // ---- Settling and counting ----

  /** settleDroppedRefUnlocked: best effort, so a failed write leaves the record to come back. */
  function Settle(q: Queue, id: Id): Queue {
    if q.store.None? then q else
    var (d, res) := AppendAck(q.store.value, id);
    var q1 := q.(store := Some(d));
    if res.Written? then q1.(led := q.led.(durable := q.led.durable + {id}, stale := q.led.stale - {id}))
    else q1.(led := q.led.(stale := q.led.stale + {id}))
  }

  function CountDrop(q: Queue, id: Id): Queue {
    q.(droppedTotal := q.droppedTotal + 1, led := q.led.(dropped := q.led.dropped + {id}))
  }

  // ---- Enqueue ----

  /** The zero time.Time, year 1, in nanoseconds since the Unix epoch. */
  const ZERO_TIME: int := -62135596800 * 1000000000

  function Stamped(item: Item, newId: Id, now: int): Item {
    item.(id := if item.id == [] then newId else item.id,
          enqueuedAt := if item.enqueuedAt == ZERO_TIME then now else item.enqueuedAt)
  }

  function Admit(q: Queue, item: Item): Queue {
    q.(led := q.led.(seen := q.led.seen + {item.id}, accepted := q.led.accepted + {item.id},
                     start := q.led.start[item.id := item.attempts], charges := q.led.charges[item.id := 0]))
  }

  function Accept(q: Queue, item: Item): Queue {
    Admit(Put(q, item), item)
  }

  function SpillItem(q: Queue, item: Item): (Queue, AppendResult)
    requires q.store.Some?
  {
    var (d, res) := AppendItem(q.store.value, item);
    var q1 := q.(store := Some(d));
    if res.Written?
    then (AddRef(q1, DiskRef(item.id, res.segment, res.offset, item.enqueuedAt, item.attempts)), res)
    else (q1, res)
  }

  /** evictOldestMemoryUnlocked: a refused spill puts the item back at the end of memory. */
  function Evict(q: Queue): (Queue, bool) {
    if q.mem == [] then (q, true) else
    var oldest := q.mem[0];
    var q1 := Take(q);
    if q.store.None? then (CountDrop(q1, oldest.id), true)
    else if RefsFull(q1) then (Put(q1, oldest), false)
    else
      var (q2, res) := SpillItem(q1, oldest);
      if res.Written? then (q2, true) else (Put(q2, oldest), false)
  }

  function MakeRoom(q: Queue, need: int): (r: (Queue, bool))
    ensures q.store.Some? ==> r.0.store.Some?
    decreases |q.mem|
  {
    if CanAccept(q, need) || q.mem == [] then (q, true) else
    var (q1, ok) := Evict(q);
    if ok then MakeRoom(q1, need) else (q1, false)
  }

  function DropOldest(q: Queue): Queue {
    if q.mem != [] then CountDrop(Take(q), q.mem[0].id)
    else if q.refs != [] then
      var ref := q.refs[0];
      var q1 := q.(refs := q.refs[1..], diskCount := q.diskCount - 1);
      CountDrop(Settle(Release(q1, ref), ref.id), ref.id)
    else q
  }

  datatype EnqueueResult = Accepted | Failed | Waits | Retries | QueueClosed

  /** One pass of the Enqueue loop, under the lock. Waits: parked on a full disk. Retries: no
      disk tier and still no room after dropping the oldest item. */
  function Enqueue(q: Queue, item: Item): (Queue, EnqueueResult) {
    var size := ItemSize(item);
    if q.closed then (q, QueueClosed)
    else if CanAccept(q, size) then (Accept(q, item), Accepted)
    else if q.store.Some? then
      var (q1, ok) := MakeRoom(q, size);
      if !ok then (q1, Failed)
      else if CanAccept(q1, size) then (Accept(q1, item), Accepted)
      else if RefsFull(q1) then (q1, Waits)
      else
        var (q2, res) := SpillItem(q1, item);
        match res
        case Written(_, _) => (Admit(q2, item), Accepted)
        case Full => (q2, Waits)
        case _ => (q2, Failed)
    else
      var q1 := DropOldest(q);
      if CanAccept(q1, size) then (Accept(q1, item), Accepted) else (q1, Retries)
  }

  // ---- Dequeue ----

  datatype Pull = Got(item: Item) | Skipped | Stopped

  /** One turn of dequeueOneUnlocked's loop over the references. */
  function PullRef(q: Queue): (Queue, Pull)
    requires q.refs != [] && q.store.Some?
  {
    var ref := q.refs[0];
    var (d, res) := ReadItem(q.store.value, ref.segment, ref.offset);
    var q1 := q.(store := Some(d), refs := q.refs[1..], diskCount := q.diskCount - 1);
    match res
    case ReadClosed => (q.(store := Some(d)), Stopped)
    case Read(item) =>
      if item.id == ref.id then (q1.(handRefs := q.handRefs + [ref]), Got(item.(attempts := ref.attempts)))
      else (DropUnreadable(q1, ref), Skipped)
    case Unreadable => (DropUnreadable(q1, ref), Skipped)
  }

  function DropUnreadable(q: Queue, ref: DiskRef): Queue {
    CountDrop(Settle(Release(q, ref), ref.id), ref.id)
  }

  function PullItem(q: Queue): Queue
    requires q.mem != []
  {
    Take(q).(handItems := q.handItems + [q.mem[0]])
  }

  lemma ReleaseRefs(q: Queue, ref: DiskRef)
    ensures Release(q, ref).refs == q.refs && Release(q, ref).store == q.store
  {
    hide Claim;
  }

  lemma SettleRefs(q: Queue, id: Id)
    ensures Settle(q, id).refs == q.refs && Settle(q, id).store.Some? == q.store.Some?
  {
    hide AppendAck;
  }

  lemma DropUnreadableRefs(q: Queue, ref: DiskRef)
    ensures var q' := DropUnreadable(q, ref); q'.refs == q.refs && q'.store.Some? == q.store.Some?
  {
    hide Release, Settle;
    ReleaseRefs(q, ref);
    SettleRefs(Release(q, ref), ref.id);
  }

  /** A skipped reference is gone, so the loop over the references ends. */
  lemma PullRefShrinks(q: Queue)
    requires q.refs != [] && q.store.Some?
    ensures PullRef(q).1.Skipped? ==> |PullRef(q).0.refs| < |q.refs|
    ensures PullRef(q).0.store.Some?
  {
    hide ReadItem, DropUnreadable;
    var ref := q.refs[0];
    var (d, res) := ReadItem(q.store.value, ref.segment, ref.offset);
    DropUnreadableRefs(q.(store := Some(d), refs := q.refs[1..], diskCount := q.diskCount - 1), ref);
  }

  function DequeueOne(q: Queue): (Queue, Option<Item>)
    decreases |q.refs|
  {
    if q.refs != [] && q.store.Some? then
      PullRefShrinks(q);
      var (q1, pull) := PullRef(q);
      match pull
      case Got(item) => (q1, Some(item))
      case Stopped => (q1, None)
      case Skipped => DequeueOne(q1)
    else if q.mem != [] then (PullItem(q), Some(q.mem[0]))
    else (q, None)
  }

  /** The pull loop: stops at n items, at an empty queue, or when the context ends after `checks`
      more looks at it. */
  function PullBatch(q: Queue, n: nat, checks: nat, batch: seq<Item>): (Queue, seq<Item>)
    decreases checks
  {
    if |batch| >= n || checks == 0 then (q, batch) else
    var (q1, got) := DequeueOne(q);
    if got.None? then (q1, batch) else PullBatch(q1, n, checks - 1, batch + [got.value])
  }

  function RegisterRef(q: Queue, now: int): Queue
    requires q.handRefs != []
  {
    var ref := q.handRefs[0];
    NotePeak(q.(handRefs := q.handRefs[1..], inflight := q.inflight[ref.id := RefEntry(ref, now)]))
  }

  function RegisterItem(q: Queue, now: int): Queue
    requires q.handItems != []
  {
    var item := q.handItems[0];
    NotePeak(q.(handItems := q.handItems[1..], inflight := q.inflight[item.id := MemEntry(item, now)]))
  }

  function NotePeak(q: Queue): Queue {
    if |q.inflight| > q.led.peak then q.(led := q.led.(peak := |q.inflight|)) else q
  }

  function Register(q: Queue, now: int): Queue
    decreases |q.handRefs| + |q.handItems|
  {
    if q.handRefs != [] then Register(RegisterRef(q, now), now)
    else if q.handItems != [] then Register(RegisterItem(q, now), now)
    else q
  }

  datatype DequeueResult = Batch(items: seq<Item>) | BadSize | Cancelled | Drained | Parked

  /** One pass of DequeueBatch. Drained: closed with nothing left it can deliver. Parked: nothing
      to hand out now. `checks` is how many looks at the context still find it alive. */
  function Dequeue(q: Queue, n: int, checks: nat, now: int): (Queue, DequeueResult) {
    if n <= 0 then (q, BadSize)
    else if checks == 0 then (q, Cancelled)
    else if q.closed && q.mem == [] && (q.refs == [] || (q.store.Some? && q.store.value.closed)) then (q, Drained)
    else if checks == 1 then (q, Cancelled)
    else
      var (q1, batch) := PullBatch(q, n, checks - 1, []);
      var q2 := Compact(q1);
      if batch == [] then (q2, Parked) else (Register(q2, now), Batch(batch))
  }

  // ---- Compaction ----

  predicate Spent(q: Queue) {
    q.store.Some? && q.lowest < Active(q.store.value.segs) && Claim(q, q.lowest) == 0
  }

  function RemoveLowest(q: Queue): (Queue, bool)
    requires q.store.Some?
  {
    var (d, ok) := Remove(q.store.value, q.lowest);
    var q1 := q.(store := Some(d));
    if !ok then (q1, false)
    else (q1.(claims := q.claims - {q.lowest}, lowest := q.lowest + 1,
              led := q.led.(stale := q.led.stale * Replay(d.segs).pending.Keys)), true)
  }

  function Compact(q: Queue): Queue
    decreases if q.store.Some? then Active(q.store.value.segs) - q.lowest else 0
  {
    if !Spent(q) then q else
    var (q1, ok) := RemoveLowest(q);
    if ok then Compact(q1) else q1
  }

  // ---- Ack, nack, drop ----

  function AckOne(q: Queue, id: Id): (Queue, bool) {
    if id !in q.inflight then (q, true)
    else if q.inflight[id].RefEntry? && q.store.Some? then
      var (d, res) := AppendAck(q.store.value, id);
      if !res.Written? then (q.(store := Some(d)), false)
      else
        var q1 := Release(q.(inflight := q.inflight - {id}), q.inflight[id].ref);
        (q1.(store := Some(d), led := q1.led.(acked := q.led.acked + {id}, durable := q.led.durable + {id})), true)
    else (q.(inflight := q.inflight - {id}, led := q.led.(acked := q.led.acked + {id})), true)
  }

  function AckLoop(q: Queue, ids: seq<Id>): (Queue, bool)
    decreases |ids|
  {
    if ids == [] then (q, true) else
    var (q1, ok) := AckOne(q, ids[0]);
    if ok then AckLoop(q1, ids[1..]) else (q1, false)
  }

  datatype Outcome = Done | Refused | Error

  function Ack(q: Queue, ids: seq<Id>): (Queue, Outcome) {
    if q.closed then (q, Refused) else
    var (q1, ok) := AckLoop(q, ids);
    (Compact(q1), if ok then Done else Error)
  }

  datatype NackKind = NackFailed | NackDelivered | NackUntried | NackSessionEnd

  function ChargeOf(kind: NackKind): nat {
    if kind.NackUntried? || kind.NackSessionEnd? then 0 else 1
  }

  /** retireInflightUnlocked, for an entry already out of the map. */
  function Retire(q: Queue, id: Id, e: Entry, delivered: bool): Queue {
    var q1 := if e.RefEntry? then Settle(Release(q, e.ref), id) else q;
    if delivered
    then q1.(unrecordedTotal := q.unrecordedTotal + 1, led := q1.led.(unrecorded := q.led.unrecorded + {id}))
    else CountDrop(q1, id)
  }

  function AttemptsOf(e: Entry): int {
    if e.RefEntry? then e.ref.attempts else e.item.attempts
  }

  function Charges(q: Queue, id: Id): nat {
    if id in q.led.charges then q.led.charges[id] else 0
  }

  function TakeBack(q: Queue, id: Id, kind: NackKind): Queue {
    if id !in q.inflight then q else
    var e := q.inflight[id];
    var attempts := AttemptsOf(e) + ChargeOf(kind);
    var q0 := q.(inflight := q.inflight - {id});
    var q1 := if ChargeOf(kind) == 0 then q0
              else q0.(led := q.led.(charges := q.led.charges[id := Charges(q, id) + 1]));
    if attempts > MAX_ATTEMPTS then Retire(q1, id, e, kind.NackDelivered?)
    else match e
      case RefEntry(ref, _) => q1.(handRefs := q.handRefs + [ref.(attempts := attempts)])
      case MemEntry(item, _) => q1.(handItems := q.handItems + [item.(attempts := attempts)])
  }

  function TakeBackAll(q: Queue, ids: seq<Id>, kind: NackKind): Queue
    decreases |ids|
  {
    if ids == [] then q else TakeBackAll(TakeBack(q, ids[0], kind), ids[1..], kind)
  }

  function ReturnRef(q: Queue): Queue
    requires q.handRefs != []
  {
    var n := |q.handRefs| - 1;
    q.(handRefs := q.handRefs[..n], refs := [q.handRefs[n]] + q.refs, diskCount := q.diskCount + 1)
  }

  function ReturnRefs(q: Queue): Queue
    decreases |q.handRefs|
  {
    if q.handRefs == [] then q else ReturnRefs(ReturnRef(q))
  }

  /** The last handed-back memory item: to the front of memory, else to disk, else dropped. */
  function ReturnItem(q: Queue): (Queue, bool)
    requires q.handItems != []
  {
    var n := |q.handItems| - 1;
    var item := q.handItems[n];
    var q1 := q.(handItems := q.handItems[..n]);
    if CanAccept(q1, ItemSize(item)) then (PutFront(q1, item), true)
    else if q1.store.Some? then
      if RefsFull(q1) then (CountDrop(q1, item.id), false)
      else
        var (q2, res) := SpillItem(q1, item);
        if res.Written? then (q2, true) else (CountDrop(q2, item.id), false)
    else (CountDrop(q1, item.id), true)
  }

  function ReturnItems(q: Queue, ok: bool): (Queue, bool)
    decreases |q.handItems|
  {
    if q.handItems == [] then (q, ok) else
    var (q1, ok1) := ReturnItem(q);
    ReturnItems(q1, ok && ok1)
  }

  function Nack(q: Queue, ids: seq<Id>, kind: NackKind): (Queue, Outcome) {
    if q.closed then (q, Refused) else
    var (q1, ok) := ReturnItems(ReturnRefs(TakeBackAll(q, ids, kind)), true);
    (Compact(q1), if ok then Done else Error)
  }

  function DropOne(q: Queue, id: Id): Queue {
    if id !in q.inflight then q
    else Retire(q.(inflight := q.inflight - {id}), id, q.inflight[id], false)
  }

  function DropAll(q: Queue, ids: seq<Id>): Queue
    decreases |ids|
  {
    if ids == [] then q else DropAll(DropOne(q, ids[0]), ids[1..])
  }

  function Drop(q: Queue, ids: seq<Id>): (Queue, Outcome) {
    if q.closed then (q, Refused) else (Compact(DropAll(q, ids)), Done)
  }

  // ---- Close ----

  /** One turn of Close's flush: to disk, counted when there is no reference slot, lost on a
      failed write. */
  function FlushOne(q: Queue): (Queue, bool)
    requires q.mem != [] && q.store.Some?
  {
    var item := q.mem[0];
    var q1 := Take(q);
    if RefsFull(q1) then (CountDrop(q1, item.id), true)
    else
      var (q2, res) := SpillItem(q1, item);
      if res.Written? then (q2, true)
      else (q2.(led := q2.led.(lost := q2.led.lost + {item.id})), false)
  }

  function Flush(q: Queue): (Queue, bool)
    decreases |q.mem|
  {
    if q.mem == [] || q.store.None? then (q, true) else
    var (q1, ok) := FlushOne(q);
    if ok then Flush(q1) else (q1, false)
  }

  function CloseStore(q: Queue): Queue {
    if q.store.None? then q else q.(store := Some(q.store.value.(closed := true, hasFile := false)))
  }

  function Close(q: Queue): (Queue, Outcome) {
    if q.closed then (q, Done) else
    var (q1, ok) := Flush(q.(closed := true));
    if ok then (CloseStore(q1), Done) else (q1, Error)
  }

  // ---- Starting ----

  const NO_HISTORY: Ledger := Ledger({}, {}, {}, {}, {}, {}, {}, {}, map[], map[], map[], 0)

  function EmptyQueue(cfg: Config, store: Option<Disk>, lowest: nat, led: Ledger): Queue {
    Queue(cfg, [], 0, 0, [], 0, map[], lowest, 0, map[], [], [], store, 0, 0, false, led)
  }

  /** The start of New over a directory, before any reference is kept: memory is gone and
      everything a replay returns is owed. */
  function Boot(cfg: Config, segs: Segments, io: nat -> IO, led: Ledger): Queue {
    var d := Reopened(segs, DiskBudget(cfg), io);
    EmptyQueue(cfg, Some(d), LowestFile(d.segs),
               NO_HISTORY.(seen := led.seen, durable := led.durable, stale := Replay(d.segs).pending.Keys))
  }

  function Adopt(q: Queue, ref: DiskRef): Queue {
    var q1 := AddRef(q, ref);
    q1.(led := q1.led.(stale := q.led.stale - {ref.id}, accepted := q.led.accepted + {ref.id},
                       start := q.led.start[ref.id := ref.attempts], charges := q.led.charges[ref.id := 0]))
  }

  /** A recovered reference past the cap: counted, and acked so the next start does not see it. */
  function CutOff(q: Queue, ref: DiskRef): Queue {
    CountDrop(Settle(q.(led := q.led.(accepted := q.led.accepted + {ref.id})), ref.id), ref.id)
  }

  function AdoptAll(q: Queue, refs: seq<DiskRef>): Queue
    decreases |refs|
  {
    if refs == [] then q else AdoptAll(Adopt(q, refs[0]), refs[1..])
  }

  function CutOffAll(q: Queue, refs: seq<DiskRef>): Queue
    decreases |refs|
  {
    if refs == [] then q else CutOffAll(CutOff(q, refs[0]), refs[1..])
  }

  /** New over a directory whose replay came back in the order `found`. */
  function Start(cfg: Config, segs: Segments, io: nat -> IO, found: seq<DiskRef>, led: Ledger): Queue {
    var cap := Slots(DiskBudget(cfg));
    var keep := if |found| > cap then cap else |found|;
    CutOffAll(AdoptAll(Boot(cfg, segs, io, led), found[..keep]), found[keep..])
  }
}
