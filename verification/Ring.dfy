/** The byte-bounded replay buffer of a console session. */
module Rings {
  import opened Bytes

  datatype Channel = Stdout | Stderr

  datatype Frame = Frame(channel: Channel, seqno: nat, chunk: seq<byte>)

  function Total(frames: seq<Frame>): nat {
    if frames == [] then 0 else |frames[0].chunk| + Total(frames[1..])
  }

  lemma {:induction false} TotalSnoc(frames: seq<Frame>, f: Frame)
    ensures Total(frames + [f]) == Total(frames) + |f.chunk|
  {
    if frames == [] {
      assert [f][1..] == [];
    } else {
      assert (frames + [f])[1..] == frames[1..] + [f];
      TotalSnoc(frames[1..], f);
    }
  }

  /** Frames carry the numbers 1, 2, 3, ... in the order they were pushed. */
  ghost predicate Numbered(all: seq<Frame>) {
    forall i | 0 <= i < |all| :: all[i].seqno == i + 1
  }

  /** all[low..] is the longest suffix of all frames that fits, or the last frame alone. */
  ghost predicate Retained(all: seq<Frame>, max: int, low: nat) {
    && low <= |all| && (all != [] ==> low < |all|)
    && (Total(all[low..]) <= max || low + 1 >= |all|)
    && forall l: nat | l < low :: Total(all[l..]) > max
  }

  lemma LowInRange(all: seq<Frame>, max: int, low: nat)
    requires Retained(all, max, low)
    ensures low <= |all| && (all != [] ==> low < |all|)
  {
  }

  /** That determines it. */
  lemma RetainedUnique(all: seq<Frame>, max: int, low: nat, low': nat)
    requires Retained(all, max, low) && Retained(all, max, low')
    ensures low == low'
  {
  }

  /** Where eviction stops, from low on. */
  function Trim(all: seq<Frame>, low: nat, max: int): (l: nat)
    requires low < |all|
    ensures low <= l < |all|
    decreases |all| - low
  {
    if Total(all[low..]) > max && low + 1 < |all| then Trim(all, low + 1, max) else low
  }

  lemma TrimStep(all: seq<Frame>, low: nat, max: int)
    requires low + 1 < |all| && Total(all[low..]) > max
    ensures all[low..] != [] && all[low..][1..] == all[low + 1..]
    ensures Total(all[low..]) == |all[low..][0].chunk| + Total(all[low + 1..])
    ensures Trim(all, low, max) == Trim(all, low + 1, max)
  {
    assert all[low..][1..] == all[low + 1..];
  }

  lemma TrimStops(all: seq<Frame>, low: nat, max: int)
    requires low < |all| && (Total(all[low..]) <= max || low + 1 == |all|)
    ensures Trim(all, low, max) == low
  {
  }

  lemma NumberedSnoc(all: seq<Frame>, f: Frame)
    requires Numbered(all) && f.seqno == |all| + 1
    ensures Numbered(all + [f])
  {
  }

  /** Eviction keeps the longest suffix that fits as frames come in. */
  lemma {:induction false} TrimRetains(all: seq<Frame>, low: nat, max: int)
    requires low < |all| && forall l: nat | l < low :: Total(all[l..]) > max
    ensures Retained(all, max, Trim(all, low, max))
    decreases |all| - low
  {
    if Total(all[low..]) > max && low + 1 < |all| {
      TrimRetains(all, low + 1, max);
    }
  }

  lemma PushRetains(all: seq<Frame>, low: nat, max: int, f: Frame)
    requires Retained(all, max, low)
    ensures Retained(all + [f], max, Trim(all + [f], low, max))
  {
    forall l: nat | l < low ensures Total((all + [f])[l..]) > max {
      assert (all + [f])[l..] == all[l..] + [f];
      TotalSnoc(all[l..], f);
    }
    TrimRetains(all + [f], low, max);
  }

  /** The first frame a replay after the given number may hand out. */
  function StartAfter(n: nat, low: nat, after: nat): (start: nat)
    requires low <= n
    ensures low <= start <= n
  {
    if after > n then n else if after < low then low else after
  }

  lemma NumberAt(all: seq<Frame>, k: nat)
    requires k < |all| && Numbered(all)
    ensures all[k].seqno == k + 1
  {
  }

  /** The frames from start on, of the first k. */
  ghost function Upto(all: seq<Frame>, start: nat, k: nat): seq<Frame>
    requires k <= |all|
  {
    if start <= k then all[start..k] else []
  }

  lemma UptoNext(all: seq<Frame>, start: nat, k: nat)
    requires k < |all|
    ensures Upto(all, start, k + 1) == Upto(all, start, k) + if start <= k then [all[k]] else []
  {
  }

  lemma UptoEnds(all: seq<Frame>, start: nat)
    requires start <= |all|
    ensures Upto(all, start, |all|) == all[start..]
  {
  }

  lemma UptoNone(all: seq<Frame>, start: nat, k: nat)
    requires k <= |all| && k <= start
    ensures Upto(all, start, k) == []
  {
  }

  class Ring {
    var frames: seq<Frame>
    var bytes: int
    const max: int
    var next: nat
    ghost var all: seq<Frame>
    ghost var low: nat

    ghost predicate Valid()
      reads this
    {
      && Numbered(all) && next == |all| + 1
      && Retained(all, max, low) && low <= |all| && frames == all[low..] && bytes == Total(frames)
    }

    constructor (maxBytes: int)
      ensures Valid() && all == [] && max == maxBytes
    {
      max, next := maxBytes, 1;
      frames, bytes := [], 0;
      all, low := [], 0;
    }

    /** push: the next number, then eviction from the front. */
    method Push(ch: Channel, chunk: seq<byte>) returns (f: Frame)
      requires Valid()
      modifies this
      ensures Valid()
      ensures f == Frame(ch, old(next), chunk) && all == old(all) + [f]
      ensures low == Trim(all, old(low), max)
    {
      hide Retained, Total, Numbered, Trim;
      f := Frame(ch, next, chunk);
      next := next + 1;
      LowInRange(all, max, low);
      TotalSnoc(frames, f);
      PushRetains(all, low, max, f);
      NumberedSnoc(all, f);
      ghost var was := low;
      all := all + [f];
      frames := frames + [f];
      bytes := bytes + |f.chunk|;
      assert frames == all[low..];
      while bytes > max && |frames| > 1
        invariant all == old(all) + [f] && next == |all| + 1 && was == old(low)
        invariant was <= low < |all| && frames == all[low..] && bytes == Total(frames)
        invariant Trim(all, low, max) == Trim(all, was, max)
        decreases |frames|
      {
        TrimStep(all, low, max);
        bytes := bytes - |frames[0].chunk|;
        frames := frames[1..];
        low := low + 1;
      }
      TrimStops(all, low, max);
    }

    /** since: everything retained after the given number, and whether anything after it is gone. */
    method Since(after: nat) returns (out: seq<Frame>, gap: bool)
      requires Valid()
      ensures out == all[StartAfter(|all|, low, after)..]
      ensures gap <==> after < low
    {
      hide Total, Retained, Numbered, Upto;
      ghost var start := StartAfter(|all|, low, after);
      if |frames| == 0 {
        return [], after + 1 < next;
      }
      NumberAt(all, low);
      var oldest := frames[0].seqno;
      gap := after + 1 < oldest;
      out := [];
      UptoNone(all, start, low);
      var i := 0;
      while i < |frames|
        invariant 0 <= i <= |frames|
        invariant out == Upto(all, start, low + i)
      {
        var f := frames[i];
        NumberAt(all, low + i);
        UptoNext(all, start, low + i);
        if f.seqno > after {
          out := out + [f];
        }
        i := i + 1;
      }
      UptoEnds(all, start);
    }

    /** last: the highest number given out so far. */
    method Last() returns (n: nat)
      requires Valid()
      ensures n == |all| && (all != [] ==> n == all[|all| - 1].seqno)
    {
      return next - 1;
    }
  }
}
