/** What holds of the queue between any two steps. */
module QueueInvariant {
  import opened Bytes
  import opened WalCodec
  import opened Wal
  import opened SpillDisk
  import opened WalLog
  import opened QueueModel

  // ---- Ids in each place, with multiplicity ----

  ghost function RefIds(refs: seq<DiskRef>): seq<Id> {
    seq(|refs|, i requires 0 <= i < |refs| => refs[i].id)
  }

  ghost function ItemIdsOf(items: seq<Item>): seq<Id> {
    seq(|items|, i requires 0 <= i < |items| => items[i].id)
  }

  ghost function RefBag(refs: seq<DiskRef>): multiset<Id> {
    multiset(RefIds(refs))
  }

  ghost function ItemBag(items: seq<Item>): multiset<Id> {
    multiset(ItemIdsOf(items))
  }

  ghost function Holding(q: Queue): multiset<Id> {
    RefBag(q.refs) + RefBag(q.handRefs) + ItemBag(q.handItems) + ItemBag(q.mem) + multiset(q.inflight.Keys)
  }

  ghost function Fates(led: Ledger): multiset<Id> {
    multiset(led.acked) + multiset(led.dropped) + multiset(led.unrecorded) + multiset(led.lost)
  }

  /** Every accepted or recovered item is in exactly one place or met exactly one fate. */
  ghost predicate Conserved(q: Queue) {
    && Holding(q) + Fates(q.led) == multiset(q.led.accepted)
    && q.droppedTotal == |q.led.dropped|
    && q.unrecordedTotal == |q.led.unrecorded|
  }

  /** The counters match what they count, within the memory limits. */
  ghost predicate Counted(q: Queue) {
    && q.memBytes == SumSizes(q.mem) <= q.cfg.maxMemory
    && q.memCount == |q.mem| <= Slots(q.cfg.maxMemory)
    && q.diskCount == |q.refs|
  }

  // ---- Live disk items and the claims they hold ----

  predicate At(loc: map<Id, Loc>, r: DiskRef) {
    r.id in loc && loc[r.id] == Loc(r.segment, r.offset)
  }

  function EntryId(e: Entry): Id {
    if e.RefEntry? then e.ref.id else e.item.id
  }

  ghost predicate Placed(refs: seq<DiskRef>, hand: seq<DiskRef>, inflight: map<Id, Entry>, loc: map<Id, Loc>) {
    && (forall r | r in refs :: At(loc, r))
    && (forall r | r in hand :: At(loc, r))
    && (forall id | id in inflight :: EntryId(inflight[id]) == id)
    && (forall id | id in inflight && inflight[id].RefEntry? :: At(loc, inflight[id].ref))
    && (forall id | id in loc :: HeldAsRef(refs, hand, inflight, id))
  }

  ghost predicate HeldAsRef(refs: seq<DiskRef>, hand: seq<DiskRef>, inflight: map<Id, Entry>, id: Id) {
    id in RefBag(refs) || id in RefBag(hand) || (id in inflight && inflight[id].RefEntry?)
  }

  ghost function On(loc: map<Id, Loc>, segment: nat): set<Id> {
    set id | id in loc && loc[id].segment == segment
  }

  ghost function ClaimAt(claims: map<nat, int>, segment: nat): int {
    if segment in claims then claims[segment] else 0
  }

  /** Each segment's count is the number of live items recorded in it. */
  ghost predicate ClaimsExact(claims: map<nat, int>, loc: map<Id, Loc>) {
    && (forall s | s in claims :: claims[s] > 0)
    && (forall s: nat :: ClaimAt(claims, s) == |On(loc, s)|)
  }

  // ---- The log and what it would replay ----

  /** A replay returns the live disk items, each at its place, and besides them only stale ones. */
  ghost predicate LogExact(segs: Segments, lowest: nat, loc: map<Id, Loc>, stale: set<Id>, durable: set<Id>) {
    && segs != [] && lowest <= Active(segs)
    && (forall i | 0 <= i < lowest :: segs[i].None?)
    && AllReadable(segs)
    && AcksFollowItems(segs)
    && var re := Replay(segs);
    && re.acked <= durable
    && re.pending.Keys == loc.Keys + stale
    && forall id | id in loc :: Loc(re.pending[id].segment, re.pending[id].offset) == loc[id]
  }

  ghost predicate LogInv(store: Option<Disk>, lowest: nat, loc: map<Id, Loc>, stale: set<Id>, durable: set<Id>) {
    match store
    case Some(d) => LogExact(d.segs, lowest, loc, stale, durable)
    case None => loc == map[] && stale == {}
  }

  /** Nothing held is settled on disk, and nothing settled durably is owed. */
  ghost predicate Unsettled(held: multiset<Id>, durable: set<Id>, stale: set<Id>, accepted: set<Id>, seen: set<Id>) {
    && (forall id | id in held :: id !in durable && id !in stale)
    && durable !! stale
    && accepted <= seen && durable <= seen && stale <= seen
  }

  /** What is stale was given up on: never acked, never merely lost from memory. */
  ghost predicate GivenUp(led: Ledger) {
    led.stale !! led.acked && led.stale !! led.lost
  }

  // ---- Items held in memory, attempts, bounds ----

  predicate Tried(start: map<Id, int>, charges: map<Id, nat>, id: Id, attempts: int) {
    && id in start && id in charges
    && attempts == start[id] + charges[id]
    && (charges[id] == 0 || attempts <= MAX_ATTEMPTS)
  }

  ghost predicate ItemsOk(items: seq<Item>, start: map<Id, int>, charges: map<Id, nat>) {
    forall item | item in items :: Fits(item) && Tried(start, charges, item.id, item.attempts)
  }

  ghost predicate RefsOk(refs: seq<DiskRef>, start: map<Id, int>, charges: map<Id, nat>) {
    forall r | r in refs :: |r.id| <= MAX_ID && Tried(start, charges, r.id, r.attempts)
  }

  ghost predicate EntriesOk(inflight: map<Id, Entry>, start: map<Id, int>, charges: map<Id, nat>) {
    forall id | id in inflight ::
      var e := inflight[id];
      && Tried(start, charges, id, AttemptsOf(e))
      && |id| <= MAX_ID
      && (e.MemEntry? ==> Fits(e.item))
  }

  ghost predicate TriedAll(q: Queue) {
    var start, charges := q.led.start, q.led.charges;
    && ItemsOk(q.mem, start, charges) && ItemsOk(q.handItems, start, charges)
    && RefsOk(q.refs, start, charges) && RefsOk(q.handRefs, start, charges)
    && EntriesOk(q.inflight, start, charges)
  }

  ghost predicate Bounded(q: Queue) {
    && |q.inflight| <= q.led.peak
    && |q.led.loc| <= Slots(DiskBudget(q.cfg)) + q.led.peak
  }

  ghost predicate Inv(q: Queue) {
    && Conserved(q)
    && Counted(q)
    && Placed(q.refs, q.handRefs, q.inflight, q.led.loc)
    && ClaimsExact(q.claims, q.led.loc) && q.underflows == 0
    && LogInv(q.store, q.lowest, q.led.loc, q.led.stale, q.led.durable)
    && Unsettled(Holding(q), q.led.durable, q.led.stale, q.led.accepted, q.led.seen)
    && GivenUp(q.led)
    && TriedAll(q)
    && Bounded(q)
  }

  // ---- Bags ----

  lemma RefBagConcat(a: seq<DiskRef>, b: seq<DiskRef>)
    ensures RefBag(a + b) == RefBag(a) + RefBag(b)
  {
    assert RefIds(a + b) == RefIds(a) + RefIds(b);
  }

  lemma ItemBagConcat(a: seq<Item>, b: seq<Item>)
    ensures ItemBag(a + b) == ItemBag(a) + ItemBag(b)
  {
    assert ItemIdsOf(a + b) == ItemIdsOf(a) + ItemIdsOf(b);
  }

  lemma RefBagHead(refs: seq<DiskRef>)
    requires refs != []
    ensures RefBag(refs) == multiset{refs[0].id} + RefBag(refs[1..])
  {
    RefBagConcat([refs[0]], refs[1..]);
    assert [refs[0]] + refs[1..] == refs;
    assert RefBag([refs[0]]) == multiset{refs[0].id};
  }

  lemma RefBagPush(r: DiskRef, refs: seq<DiskRef>)
    ensures RefBag([r] + refs) == multiset{r.id} + RefBag(refs)
    ensures RefBag(refs + [r]) == multiset{r.id} + RefBag(refs)
  {
    RefBagConcat([r], refs);
    assert RefBag([r]) == multiset{r.id};
    RefBagConcat(refs, [r]);
  }

  lemma ItemBagHead(items: seq<Item>)
    requires items != []
    ensures ItemBag(items) == multiset{items[0].id} + ItemBag(items[1..])
  {
    ItemBagConcat([items[0]], items[1..]);
    assert [items[0]] + items[1..] == items;
    assert ItemBag([items[0]]) == multiset{items[0].id};
  }

  lemma ItemBagPush(x: Item, items: seq<Item>)
    ensures ItemBag([x] + items) == multiset{x.id} + ItemBag(items)
    ensures ItemBag(items + [x]) == multiset{x.id} + ItemBag(items)
  {
    ItemBagConcat([x], items);
    assert ItemBag([x]) == multiset{x.id};
    ItemBagConcat(items, [x]);
  }

  lemma {:induction false} ReverseKeeps(s: seq<Item>)
    ensures ItemBag(Reverse(s)) == ItemBag(s)
    ensures |Reverse(s)| == |s|
    ensures SumSizes(Reverse(s)) == SumSizes(s)
    ensures forall x :: x in Reverse(s) <==> x in s
  {
    if s != [] {
      ReverseKeeps(s[1..]);
      ItemBagPush(s[0], Reverse(s[1..]));
      ItemBagHead(s);
      SumSizesHead(s);
      SumSizesPush(s[0], Reverse(s[1..]));
      assert s == [s[0]] + s[1..];
    }
  }

  lemma {:induction false} SumSizesConcat(a: seq<Item>, b: seq<Item>)
    ensures SumSizes(a + b) == SumSizes(a) + SumSizes(b)
  {
    if b == [] {
      assert a + b == a;
    } else {
      var n := |b| - 1;
      SumSizesConcat(a, b[..n]);
      assert (a + b)[..|a + b| - 1] == a + b[..n];
    }
  }

  lemma SumSizesHead(s: seq<Item>)
    requires s != []
    ensures SumSizes(s) == ItemSize(s[0]) + SumSizes(s[1..])
  {
    SumSizesConcat([s[0]], s[1..]);
    assert [s[0]] + s[1..] == s;
    assert SumSizes([s[0]]) == ItemSize(s[0]);
  }

  lemma SumSizesPush(x: Item, s: seq<Item>)
    ensures SumSizes([x] + s) == ItemSize(x) + SumSizes(s)
    ensures SumSizes(s + [x]) == ItemSize(x) + SumSizes(s)
  {
    SumSizesConcat([x], s);
    assert SumSizes([x]) == ItemSize(x);
    SumSizesConcat(s, [x]);
  }

  lemma InRefBag(refs: seq<DiskRef>, r: DiskRef)
    requires r in refs
    ensures r.id in RefBag(refs)
  {
    var i :| 0 <= i < |refs| && refs[i] == r;
    assert RefIds(refs)[i] == r.id;
  }

  lemma OutOfRefBag(refs: seq<DiskRef>, id: Id) returns (r: DiskRef)
    requires id in RefBag(refs)
    ensures r in refs && r.id == id
  {
    assert id in RefIds(refs);
    var i :| 0 <= i < |refs| && RefIds(refs)[i] == id;
    r := refs[i];
  }

  lemma InItemBag(items: seq<Item>, x: Item)
    requires x in items
    ensures x.id in ItemBag(items)
  {
    var i :| 0 <= i < |items| && items[i] == x;
    assert ItemIdsOf(items)[i] == x.id;
  }

  lemma {:induction false} RefBagSize(refs: seq<DiskRef>) returns (ids: set<Id>)
    ensures |ids| <= |refs| && forall id | id in RefBag(refs) :: id in ids
  {
    if refs == [] {
      ids := {};
    } else {
      ids := RefBagSize(refs[1..]);
      RefBagHead(refs);
      ids := ids + {refs[0].id};
    }
  }

  lemma SetBag(s: set<Id>, id: Id)
    ensures id !in s ==> multiset(s + {id}) == multiset(s) + multiset{id} && |s + {id}| == |s| + 1
    ensures id in s ==> multiset(s) == multiset(s - {id}) + multiset{id} && |s - {id}| == |s| - 1
  {
  }

  /** No id is in two places, nor in one and already settled. */
  lemma Once(q: Queue, id: Id)
    requires Conserved(q)
    ensures Holding(q)[id] + Fates(q.led)[id] <= 1
  {
    assert (Holding(q) + Fates(q.led))[id] == multiset(q.led.accepted)[id];
  }
}
