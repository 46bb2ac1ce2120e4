/** Where the queue is narrower than its comments say: records too long for the readers, the order
    a memory hand-back leaves, and an arrival too large for a queue without a disk. */
module QueueLimits {
  import opened Bytes
  import opened WalCodec
  import opened Wal
  import opened SpillDisk
  import opened WalLog
  import opened QueueModel
  import opened QueueInvariant

  // ---- Oversized records ----

  ghost function Appended(segs: Segments, recs: seq<Record>): Segments
    requires Live(segs)
  {
    segs[Active(segs) := Some(ActiveRecords(segs) + recs)]
  }

  lemma AppendedPrefix(segs: Segments, recs: seq<Record>)
    requires Live(segs) && AllReadable(segs)
    ensures Recover(segs[..Active(segs)]) == Replay(segs[..Active(segs)])
    ensures Appended(segs, recs)[..Active(segs)] == segs[..Active(segs)]
    ensures forall j | 0 <= j < |ActiveRecords(segs)| :: Readable(ActiveRecords(segs)[j])
  {
    var n := Active(segs);
    AllReadablePrefix(segs, n);
    RecoverIsReplay(segs[..n]);
    assert Records(segs, n) == ActiveRecords(segs);
  }

  /** An item the writer accepts but the readers do not is invisible to recovery, and so is every
      record appended to its segment after it: later items are lost, and later acks undone. */
  lemma OversizedHidesTheRest(segs: Segments, item: Item, later: seq<Record>)
    requires Live(segs) && AllReadable(segs) && Encodable(item) && !Fits(item)
    ensures Recover(Appended(segs, [ItemRec(item)] + later)) == Replay(segs)
  {
    hide Replay, Recover, ReplayBytes, SegmentBytes, Fold, AllReadable, Encodable, Fits;
    var n := Active(segs);
    var recs := ActiveRecords(segs);
    AppendedPrefix(segs, [ItemRec(item)] + later);
    RecoverLast(segs, [ItemRec(item)] + later);
    assert !Readable(ItemRec(item)) by { TooLong(item); }
    UnreadableHidesTheRest(n, recs, ItemRec(item), later, Replay(segs[..n]));
    Assoc(recs, [ItemRec(item)], later);
    ReplayLast(segs);
  }

  lemma TooLong(item: Item)
    requires !Fits(item)
    ensures !Readable(ItemRec(item))
  {
  }

  lemma RecoverLast(segs: Segments, more: seq<Record>)
    requires Live(segs)
    ensures var n := Active(segs); var segs' := Appended(segs, more);
            Recover(segs') == ReplayBytes(n, SegmentBytes(ActiveRecords(segs) + more), Recover(segs'[..n]))
  {
    hide ReplayBytes, SegmentBytes;
  }

  lemma ReplayLast(segs: Segments)
    requires Live(segs)
    ensures Replay(segs) == Fold(Active(segs), ActiveRecords(segs), Replay(segs[..Active(segs)]))
  {
  }

  /** A freshly written item comes back after a restart exactly when its record body is within the
      readers' limit. */
  lemma RecoveredIffFits(segs: Segments, item: Item)
    requires Live(segs) && AllReadable(segs) && Encodable(item)
    requires item.id !in Replay(segs).acked && item.id !in Replay(segs).pending
    ensures item.id in Recover(Appended(segs, [ItemRec(item)])).pending <==> Fits(item)
  {
    hide Replay, Recover, AllReadable;
    if Fits(item) {
      ReplayAppend(segs, ItemRec(item));
      AllReadableAppend(segs, ItemRec(item));
      RecoverIsReplay(Appended(segs, [ItemRec(item)]));
    } else {
      assert [ItemRec(item)] + [] == [ItemRec(item)];
      OversizedHidesTheRest(segs, item, []);
    }
  }

  // ---- The order a memory hand-back leaves ----

  lemma {:induction false} ReverseAt(s: seq<Item>, k: nat)
    requires k < |s|
    ensures |Reverse(s)| == |s| && Reverse(s)[k] == s[|s| - 1 - k]
  {
    if |s| > 1 {
      ReverseAt(s[1..], if k < |s| - 1 then k else 0);
    }
  }

  /** Handing an item back to the front of memory keeps the items behind it in order only when
      there is at most one of them: otherwise they come out reversed. */
  lemma FrontKeepsOrderIff(q: Queue, item: Item)
    requires forall i, j | 0 <= i < j < |q.mem| :: q.mem[i].id != q.mem[j].id
    ensures PutFront(q, item).mem == [item] + q.mem <==> |q.mem| <= 1
    ensures multiset(PutFront(q, item).mem) == multiset([item] + q.mem)
  {
    hide Reverse;
    ReversedIff(q.mem);
    ReverseBag(q.mem);
    Behind(item, Reverse(q.mem), q.mem);
  }

  lemma Behind(item: Item, a: seq<Item>, b: seq<Item>)
    ensures [item] + a == [item] + b <==> a == b
  {
    assert ([item] + a)[1..] == a && ([item] + b)[1..] == b;
  }

  lemma ReversedIff(s: seq<Item>)
    requires forall i, j | 0 <= i < j < |s| :: s[i].id != s[j].id
    ensures Reverse(s) == s <==> |s| <= 1
  {
    if |s| >= 2 {
      hide Reverse;
      ReverseAt(s, 0);
    }
  }

  lemma {:induction false} ReverseBag(s: seq<Item>)
    ensures multiset(Reverse(s)) == multiset(s)
  {
    if s != [] {
      ReverseBag(s[1..]);
      assert s == [s[0]] + s[1..];
    }
  }

  // ---- An arrival without a disk tier ----

  /** The Enqueue loop run k times. */
  ghost function Passes(q: Queue, item: Item, k: nat): (Queue, EnqueueResult) {
    if k == 0 then (q, Retries) else
    var (q1, r) := Passes(q, item, k - 1);
    if r.Retries? then Enqueue(q1, item) else (q1, r)
  }

  ghost predicate MemoryOnly(q: Queue) {
    && q.store.None? && !q.closed && q.refs == []
    && q.memBytes == SumSizes(q.mem) && |q.mem| <= Slots(q.cfg.maxMemory)
  }

  lemma DropOldestMemory(q: Queue)
    requires MemoryOnly(q)
    ensures MemoryOnly(DropOldest(q)) && DropOldest(q).cfg == q.cfg
    ensures DropOldest(q).mem == if q.mem == [] then [] else q.mem[1..]
  {
    hide SumSizes;
    if q.mem != [] {
      SumSizesHead(q.mem);
    }
  }

  lemma EmptyFits(q: Queue, size: int)
    requires MemoryOnly(q) && q.mem == []
    ensures CanAccept(q, size) <==> size <= q.cfg.maxMemory
  {
  }

  lemma {:induction false} PassesShrink(q: Queue, item: Item, k: nat)
    requires MemoryOnly(q)
    ensures var (q', r) := Passes(q, item, k);
            && (r.Retries? || r.Accepted?)
            && (r.Retries? ==> MemoryOnly(q') && q'.cfg == q.cfg)
            && (r.Retries? ==> |q'.mem| <= if |q.mem| > k then |q.mem| - k else 0)
            && (r.Accepted? ==> ItemSize(item) <= q.cfg.maxMemory)
  {
    hide MemoryOnly;
    if k > 0 {
      PassesShrink(q, item, k - 1);
      var (q1, r) := Passes(q, item, k - 1);
      if r.Retries? {
        OnePass(q1, item);
      }
    }
  }

  lemma OnePass(q: Queue, item: Item)
    requires MemoryOnly(q)
    ensures var (q', r) := Enqueue(q, item);
            && (r.Retries? || r.Accepted?)
            && (r.Retries? ==> MemoryOnly(q') && q'.cfg == q.cfg)
            && (r.Retries? ==> |q'.mem| == if q.mem == [] then 0 else |q.mem| - 1)
            && (r.Accepted? ==> ItemSize(item) <= q.cfg.maxMemory)
            && (r.Retries? && ItemSize(item) <= q.cfg.maxMemory ==> |q'.mem| > 0)
  {
    hide DropOldest, SumSizes;
    DropOldestMemory(q);
    if DropOldest(q).mem == [] {
      EmptyFits(DropOldest(q), ItemSize(item));
    }
  }

  /** Without a disk tier Enqueue ever takes the item exactly when it fits in an empty memory. */
  lemma EnqueueEndsIff(q: Queue, item: Item)
    requires MemoryOnly(q)
    ensures (exists k: nat :: Passes(q, item, k).1.Accepted?) <==> ItemSize(item) <= q.cfg.maxMemory
  {
    hide MemoryOnly, Enqueue;
    if ItemSize(item) <= q.cfg.maxMemory {
      var k := |q.mem| + 1;
      PassesShrink(q, item, k);
      PassesShrink(q, item, k - 1);
      var (q1, r) := Passes(q, item, k - 1);
      if r.Retries? {
        OnePass(q1, item);
      }
      assert Passes(q, item, k).1.Accepted?;
    } else {
      forall k: nat ensures !Passes(q, item, k).1.Accepted? {
        PassesShrink(q, item, k);
      }
    }
  }
}
