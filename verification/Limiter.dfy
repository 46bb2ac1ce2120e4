/** The per-stream token bucket. Tokens, rates and times are reals: rounding is not the point. */
module TokenBuckets {
  import opened Bytes

  const MAX_LIMITER_ENTRIES := 20000
  const BUCKET_TTL: real := 600.0

  datatype Rules = Rules(rate: int, burst: int)

  datatype Bucket = Bucket(tokens: real, last: real, used: real)

  type Buckets = map<string, Bucket>

  predicate Limits(r: Rules) {
    r.rate > 0 && r.burst > 0
  }

  /** What a stretch of time earns. */
  function Gain(r: Rules, dt: real): real {
    dt * r.rate as real
  }

  lemma GainLaws(r: Rules, a: real, b: real)
    requires Limits(r)
    ensures Gain(r, a + b) == Gain(r, a) + Gain(r, b)
    ensures a <= b ==> Gain(r, a) <= Gain(r, b)
    ensures Gain(r, 0.0) == 0.0
  {
    if a <= b {
      assert Gain(r, b) - Gain(r, a) == (b - a) * r.rate as real;
    }
  }

  function Cap(r: Rules, tokens: real): real {
    if tokens > r.burst as real then r.burst as real else tokens
  }

  function Refill(b: Bucket, r: Rules, at: real): Bucket {
    if at > b.last then Bucket(Cap(r, b.tokens + Gain(r, at - b.last)), at, at) else b.(used := at)
  }

  function Spend(b: Bucket, n: nat): (Bucket, bool) {
    if b.tokens < n as real then (b, false) else (b.(tokens := b.tokens - n as real), true)
  }

  function Found(m: Buckets, key: string, r: Rules, at: real): Bucket {
    if key in m then m[key] else Bucket(r.burst as real, at, at)
  }

  /** Allow, on a value. */
  function Allowed(m: Buckets, key: string, n: nat, r: Rules, at: real): (Buckets, bool) {
    if !Limits(r) then (m, true)
    else if key !in m && |m| >= MAX_LIMITER_ENTRIES then (m, true)
    else
      var (b, ok) := Spend(Refill(Found(m, key, r, at), r, at), n);
      (m[key := b], ok)
  }

  function Evicted(m: Buckets, before: real): Buckets {
    map k | k in m && !(m[k].used < before) :: m[k]
  }

  class Limiter {
    var buckets: Buckets

    constructor ()
      ensures buckets == map[]
    {
      buckets := map[];
    }

    method Allow(key: string, n: nat, r: Rules, at: real) returns (ok: bool)
      modifies this
      ensures (buckets, ok) == Allowed(old(buckets), key, n, r, at)
    {
      hide Gain;
      if r.rate <= 0 || r.burst <= 0 {
        return true;
      }
      if key !in buckets {
        if |buckets| >= MAX_LIMITER_ENTRIES {
          return true;
        }
        buckets := buckets[key := Bucket(r.burst as real, at, at)];
      }
      ghost var was := buckets[key];
      var elapsed := at - buckets[key].last;
      if elapsed > 0.0 {
        var tokens := buckets[key].tokens + Gain(r, elapsed);
        if tokens > r.burst as real {
          tokens := r.burst as real;
        }
        buckets := buckets[key := buckets[key].(tokens := tokens, last := at)];
      }
      buckets := buckets[key := buckets[key].(used := at)];
      assert buckets[key] == Refill(was, r, at);
      if buckets[key].tokens < n as real {
        assert buckets == old(buckets)[key := buckets[key]];
        return false;
      }
      buckets := buckets[key := buckets[key].(tokens := buckets[key].tokens - n as real)];
      assert buckets == old(buckets)[key := buckets[key]];
      return true;
    }

    method Evict(before: real)
      modifies this
      ensures buckets == Evicted(old(buckets), before)
    {
      ghost var was := buckets;
      var left := buckets.Keys;
      while left != {}
        invariant left <= buckets.Keys <= was.Keys
        invariant forall k | k in left :: buckets[k] == was[k]
        invariant forall k :: k in buckets && k !in left <==> k in was && k !in left && !(was[k].used < before)
        invariant forall k | k in buckets :: buckets[k] == was[k]
        decreases left
      {
        var k :| k in left;
        if buckets[k].used < before {
          buckets := buckets - {k};
        }
        left := left - {k};
      }
    }
  }

  // ---- Runs under fixed rules ----

  datatype Op = Allow(key: string, n: nat, at: real) | Evict(at: real)

  /** The collector evicts what has been idle for the bucket's lifetime. */
  function After(m: Buckets, r: Rules, op: Op): Buckets {
    match op
    case Allow(key, n, at) => Allowed(m, key, n, r, at).0
    case Evict(at) => Evicted(m, at - BUCKET_TTL)
  }

  /** Times do not go back, and start at t. */
  ghost predicate Ordered(ops: seq<Op>, t: real) {
    && (forall i | 0 <= i < |ops| :: ops[i].at >= t)
    && (forall i, j | 0 <= i < j < |ops| :: ops[i].at <= ops[j].at)
  }

  function Final(m: Buckets, r: Rules, ops: seq<Op>): Buckets
    decreases |ops|
  {
    if ops == [] then m else Final(After(m, r, ops[0]), r, ops[1..])
  }

  /** Bytes admitted on one stream by one operation, and by a run. */
  function Admits(m: Buckets, r: Rules, op: Op, key: string): nat {
    if op.Allow? && op.key == key && Allowed(m, key, op.n, r, op.at).1 then op.n else 0
  }

  function Admitted(m: Buckets, r: Rules, ops: seq<Op>, key: string): nat
    decreases |ops|
  {
    if ops == [] then 0 else Admits(m, r, ops[0], key) + Admitted(After(m, r, ops[0]), r, ops[1..], key)
  }

  function Answers(m: Buckets, r: Rules, ops: seq<Op>): seq<bool>
    decreases |ops|
  {
    if ops == [] then []
    else (if ops[0].Allow? then [Allowed(m, ops[0].key, ops[0].n, r, ops[0].at).1] else [])
         + Answers(After(m, r, ops[0]), r, ops[1..])
  }

  // ---- Tokens ----

  ghost predicate SaneBucket(b: Bucket, r: Rules, now: real) {
    0.0 <= b.tokens <= r.burst as real && b.last == b.used <= now
  }

  ghost predicate Sane(m: Buckets, r: Rules, now: real) {
    forall k | k in m :: SaneBucket(m[k], r, now)
  }

  lemma RefillSane(b: Bucket, r: Rules, now: real, at: real)
    requires Limits(r) && SaneBucket(b, r, now) && now <= at
    ensures SaneBucket(Refill(b, r, at), r, at) && Refill(b, r, at).last == at
    ensures Refill(b, r, at).tokens == Level(b, r, at)
  {
    GainLaws(r, 0.0, at - b.last);
  }

  /** Tokens stay between zero and the burst through every operation. */
  lemma AfterSane(m: Buckets, r: Rules, now: real, op: Op)
    requires Limits(r) && Sane(m, r, now) && now <= op.at
    ensures Sane(After(m, r, op), r, op.at)
  {
    hide Refill;
    if op.Allow? {
      var found := Found(m, op.key, r, op.at);
      assert SaneBucket(found, r, op.at);
      RefillSane(found, r, op.at, op.at);
    }
  }

  lemma OrderedTail(ops: seq<Op>, t: real)
    requires Ordered(ops, t) && ops != []
    ensures Ordered(ops[1..], ops[0].at) && t <= ops[0].at
  {
  }

  lemma {:induction false} FinalSane(m: Buckets, r: Rules, now: real, ops: seq<Op>)
    requires Limits(r) && Sane(m, r, now) && Ordered(ops, now)
    ensures ops == [] ==> Final(m, r, ops) == m
    ensures ops != [] ==> Sane(Final(m, r, ops), r, ops[|ops| - 1].at)
    decreases |ops|
  {
    hide Sane, Ordered;
    if ops != [] {
      OrderedTail(ops, now);
      AfterSane(m, r, now, ops[0]);
      FinalSane(After(m, r, ops[0]), r, ops[0].at, ops[1..]);
    }
  }

  // ---- The window law ----

  /** The tokens a bucket would have at a time, if asked then. */
  function Level(b: Bucket, r: Rules, t: real): real {
    if t > b.last then Cap(r, b.tokens + Gain(r, t - b.last)) else b.tokens
  }

  /** An untracked stream counts as full. */
  function LevelOf(m: Buckets, r: Rules, key: string, t: real): real {
    if key in m then Level(m[key], r, t) else r.burst as real
  }

  lemma LevelGrows(b: Bucket, r: Rules, t: real, t': real)
    requires Limits(r) && SaneBucket(b, r, t) && t <= t'
    ensures 0.0 <= Level(b, r, t) <= Level(b, r, t') <= Level(b, r, t) + Gain(r, t' - t)
    ensures Level(b, r, t') <= r.burst as real
  {
    GainLaws(r, t - b.last, t' - t);
    GainLaws(r, t - b.last, t' - b.last);
    GainLaws(r, 0.0, t' - t);
    GainLaws(r, 0.0, t - b.last);
    assert (t - b.last) + (t' - t) == t' - b.last;
  }

  lemma LevelOfGrows(m: Buckets, r: Rules, key: string, t: real, t': real)
    requires Limits(r) && Sane(m, r, t) && t <= t'
    ensures 0.0 <= LevelOf(m, r, key, t) <= LevelOf(m, r, key, t') <= LevelOf(m, r, key, t) + Gain(r, t' - t)
    ensures LevelOf(m, r, key, t') <= r.burst as real
  {
    GainLaws(r, 0.0, t' - t);
    if key in m {
      LevelGrows(m[key], r, t, t');
    }
  }

  /** A bucket idle for its lifetime is full again when the burst is earned in that time. */
  lemma IdleIsFull(b: Bucket, r: Rules, at: real)
    requires Limits(r) && SaneBucket(b, r, at) && b.used < at - BUCKET_TTL && r.burst as real <= Gain(r, BUCKET_TTL)
    ensures Level(b, r, at) == r.burst as real
  {
    GainLaws(r, BUCKET_TTL, at - b.last);
  }

  /** The stream is tracked, or there is room to track it, whenever it is asked about. */
  ghost predicate Metered(m: Buckets, r: Rules, ops: seq<Op>, key: string)
    decreases |ops|
  {
    ops == [] ||
    ((ops[0].Allow? && ops[0].key == key ==> key in m || |m| < MAX_LIMITER_ENTRIES)
     && Metered(After(m, r, ops[0]), r, ops[1..], key))
  }

  /** The operation evicts the stream's own bucket. */
  predicate Forgets(m: Buckets, op: Op, key: string) {
    op.Evict? && key in m && m[key].used < op.at - BUCKET_TTL
  }

  /** Whenever the run evicts the stream's own bucket, that had the time to earn its burst. Other
      streams may be evicted at will. */
  ghost predicate Covered(m: Buckets, r: Rules, ops: seq<Op>, key: string)
    decreases |ops|
  {
    ops == [] ||
    ((Forgets(m, ops[0], key) ==> r.burst as real <= Gain(r, BUCKET_TTL))
     && Covered(After(m, r, ops[0]), r, ops[1..], key))
  }

  /** One operation: what it admits comes out of the level at its time. */
  lemma PaidFor(m: Buckets, r: Rules, op: Op, key: string)
    requires Limits(r) && Sane(m, r, op.at)
    requires op.Allow? && op.key == key ==> key in m || |m| < MAX_LIMITER_ENTRIES
    requires Forgets(m, op, key) ==> r.burst as real <= Gain(r, BUCKET_TTL)
    ensures Admits(m, r, op, key) as real + LevelOf(After(m, r, op), r, key, op.at) == LevelOf(m, r, key, op.at)
  {
    match op
    case Allow(k, n, at) =>
      if k == key {
        hide Refill;
        var found := Found(m, key, r, at);
        assert SaneBucket(found, r, at);
        RefillSane(found, r, at, at);
      }
    case Evict(at) =>
      hide Level;
      if key in m && m[key].used < at - BUCKET_TTL {
        IdleIsFull(m[key], r, at);
      }
  }

  lemma {:induction false} WindowPaid(m: Buckets, r: Rules, t: real, ops: seq<Op>, key: string, end: real)
    requires Limits(r) && Sane(m, r, t) && Ordered(ops, t) && Metered(m, r, ops, key) && t <= end
    requires Covered(m, r, ops, key)
    requires ops != [] ==> ops[|ops| - 1].at <= end
    ensures Admitted(m, r, ops, key) as real + LevelOf(Final(m, r, ops), r, key, end)
            <= LevelOf(m, r, key, t) + Gain(r, end - t)
    decreases |ops|
  {
    hide Sane, LevelOf, After, Admits, Gain;
    LevelOfGrows(m, r, key, t, end);
    if ops != [] {
      var at := ops[0].at;
      OrderedTail(ops, t);
      assert Sane(m, r, at) by { SaneLater(m, r, t, at); }
      LevelOfGrows(m, r, key, t, at);
      PaidFor(m, r, ops[0], key);
      AfterSane(m, r, t, ops[0]);
      WindowPaid(After(m, r, ops[0]), r, at, ops[1..], key, end);
      GainLaws(r, at - t, end - at);
      assert (at - t) + (end - at) == end - t;
    }
  }

  lemma SaneLater(m: Buckets, r: Rules, t: real, t': real)
    requires Sane(m, r, t) && t <= t'
    ensures Sane(m, r, t')
  {
  }

  /** From any state a run reached, what a stream may send in any window after it is at most the
      burst plus what the window earns, and tokens are between zero and the burst throughout. */
  lemma WindowLaw(r: Rules, past: seq<Op>, start: real, t: real, ops: seq<Op>, key: string, end: real)
    requires Limits(r) && Ordered(past, start) && start <= t <= end && Ordered(ops, t)
    requires past != [] ==> past[|past| - 1].at <= t
    requires ops != [] ==> ops[|ops| - 1].at <= end
    requires Metered(Final(map[], r, past), r, ops, key) && Covered(Final(map[], r, past), r, ops, key)
    ensures Admitted(Final(map[], r, past), r, ops, key) as real <= r.burst as real + Gain(r, end - t)
    ensures Sane(Final(Final(map[], r, past), r, ops), r, end)
  {
    hide Gain, Metered, Covered, LevelOf, Admitted, Final, Sane, Ordered;
    assert Sane(map[], r, start) by { NoneSane(r, start); }
    FinalSane(map[], r, start, past);
    var m := Final(map[], r, past);
    assert Sane(m, r, t) by {
      if past == [] {
        SaneLater(m, r, start, t);
      } else {
        SaneLater(m, r, past[|past| - 1].at, t);
      }
    }
    WindowPaid(m, r, t, ops, key, end);
    LevelOfGrows(m, r, key, t, t);
    FinalSane(m, r, t, ops);
    if ops == [] {
      SaneLater(m, r, t, end);
    } else {
      SaneLater(Final(m, r, ops), r, ops[|ops| - 1].at, end);
    }
    LevelOfGrows(Final(m, r, ops), r, key, end, end);
  }

  /** The bound holds of every window from a fresh start exactly when the burst is earned within the
      bucket's lifetime: otherwise a burst, an eviction and another burst pass it. */
  lemma WindowIff(r: Rules, key: string)
    requires Limits(r)
    ensures r.burst as real <= Gain(r, BUCKET_TTL)
            <==> forall ops, end | InWindow(r, ops, key, end) ::
                   Admitted(map[], r, ops, key) as real <= r.burst as real + Gain(r, end)
  {
    if r.burst as real <= Gain(r, BUCKET_TTL) {
      forall ops, end | InWindow(r, ops, key, end)
        ensures Admitted(map[], r, ops, key) as real <= r.burst as real + Gain(r, end)
      {
        AllCovered(map[], r, ops, key);
        WindowLaw(r, [], 0.0, 0.0, ops, key, end);
      }
    } else {
      var gap := TelltaleGap(r);
      TelltalePasses(r, key, gap);
    }
  }

  /** A run from nothing tracked, in order and over by end, with room for the stream. */
  ghost predicate InWindow(r: Rules, ops: seq<Op>, key: string, end: real) {
    && Ordered(ops, 0.0) && 0.0 <= end && (ops != [] ==> ops[|ops| - 1].at <= end)
    && Metered(map[], r, ops, key)
  }

  lemma {:induction false} AllCovered(m: Buckets, r: Rules, ops: seq<Op>, key: string)
    requires r.burst as real <= Gain(r, BUCKET_TTL)
    ensures Covered(m, r, ops, key)
    decreases |ops|
  {
    hide After, Forgets, Gain;
    if ops != [] {
      AllCovered(After(m, r, ops[0]), r, ops[1..], key);
    }
  }

  lemma TelltalePasses(r: Rules, key: string, gap: real)
    requires Limits(r) && gap > 0.0 && Gain(r, BUCKET_TTL + gap) < r.burst as real
    ensures var ops, end := Telltale(r, key, gap), BUCKET_TTL + gap;
            InWindow(r, ops, key, end) && Admitted(map[], r, ops, key) as real > r.burst as real + Gain(r, end)
  {
    var ops := Telltale(r, key, gap);
    TelltaleRun(r, key, gap);
    var spent := After(map[], r, ops[0]);
    assert Metered(map[], r, [ops[2]], key) && Metered(spent, r, [ops[1], ops[2]], key) by {
      assert [ops[1], ops[2]][1..] == [ops[2]] && [ops[2]][1..] == [];
    }
    assert ops[1..] == [ops[1], ops[2]] && ops[1..][1..] == [ops[2]] && [ops[2]][1..] == [];
    assert Admitted(map[], r, [ops[2]], key) == r.burst;
    assert Admitted(After(map[], r, ops[0]), r, ops[1..], key) == r.burst;
  }

  lemma TelltaleRun(r: Rules, key: string, gap: real)
    requires Limits(r) && gap > 0.0
    ensures var ops, spent := Telltale(r, key, gap), map[key := Bucket(0.0, 0.0, 0.0)];
            && After(map[], r, ops[0]) == spent && Admits(map[], r, ops[0], key) == r.burst
            && After(spent, r, ops[1]) == map[] && Admits(map[], r, ops[2], key) == r.burst
            && Admits(spent, r, ops[1], key) == 0
  {
    GainLaws(r, 0.0, BUCKET_TTL + gap);
  }

  lemma NoneSane(r: Rules, t: real)
    ensures Sane(map[], r, t)
  {
  }

  // ---- Exact admission ----

  /** A stream may send what its level allows, and no more. */
  lemma LevelAdmits(m: Buckets, r: Rules, key: string, n: nat, at: real)
    requires Limits(r) && Sane(m, r, at) && (key in m || |m| < MAX_LIMITER_ENTRIES)
    ensures Allowed(m, key, n, r, at).1 <==> n as real <= LevelOf(m, r, key, at)
  {
    hide Refill, Gain;
    var found := Found(m, key, r, at);
    assert SaneBucket(found, r, at);
    RefillSane(found, r, at, at);
  }

  /** A window of the run: it opens between the operations before and after k. */
  ghost predicate IsWindow(ops: seq<Op>, t: real, k: nat, from: real, end: real) {
    && k <= |ops| && t <= from <= end
    && (k > 0 ==> ops[k - 1].at <= from) && (k < |ops| ==> from <= ops[k].at)
  }

  /** What a run admits on the stream from its operation k on. */
  ghost function Sent(m: Buckets, r: Rules, ops: seq<Op>, k: nat, key: string): nat
    requires k <= |ops|
  {
    Admitted(Final(m, r, ops[..k]), r, ops[k..], key)
  }

  lemma LevelSteps(m: Buckets, r: Rules, key: string, t: real, t': real)
    requires Limits(r) && Sane(m, r, t) && t <= t'
    ensures || LevelOf(m, r, key, t') == r.burst as real
            || LevelOf(m, r, key, t') == LevelOf(m, r, key, t) + Gain(r, t' - t)
  {
    hide Gain;
    if key in m {
      var last := m[key].last;
      GainLaws(r, t - last, t' - t);
      GainLaws(r, t - last, t' - last);
      GainLaws(r, 0.0, t' - t);
      assert (t - last) + (t' - t) == t' - last;
    }
  }

  lemma SentTail(m: Buckets, r: Rules, ops: seq<Op>, k: nat, key: string)
    requires ops != [] && k < |ops|
    ensures Sent(m, r, ops, k + 1, key) == Sent(After(m, r, ops[0]), r, ops[1..], k, key)
    ensures Sent(m, r, ops, 0, key) == Admits(m, r, ops[0], key) + Sent(After(m, r, ops[0]), r, ops[1..], 0, key)
  {
    hide After, Admits;
    assert ops[..k + 1][1..] == ops[1..][..k] && ops[k + 1..] == ops[1..][k..];
    assert ops[0..] == ops && ops[1..][0..] == ops[1..] && ops[..0] == [] && ops[1..][..0] == [];
  }

  /** The level is what is left of a full bucket since some instant of the run, or of the level the
      run began with. */
  lemma {:induction false} LevelFrom(m: Buckets, r: Rules, t: real, ops: seq<Op>, key: string, end: real)
    returns (k: nat, from: real, start: real)
    requires Limits(r) && Sane(m, r, t) && Ordered(ops, t) && Metered(m, r, ops, key) && t <= end
    requires ops != [] ==> ops[|ops| - 1].at <= end
    ensures IsWindow(ops, t, k, from, end)
    ensures start == r.burst as real || (k == 0 && from == t && start == LevelOf(m, r, key, t))
    ensures LevelOf(Final(m, r, ops), r, key, end) == start + Gain(r, end - from) - Sent(m, r, ops, k, key) as real
    decreases |ops|
  {
    hide Sane, LevelOf, After, Admits, Gain, Sent, Forgets;
    if ops == [] {
      LevelSteps(m, r, key, t, end);
      GainLaws(r, 0.0, 0.0);
      assert Sent(m, r, ops, 0, key) == 0 by { SentNone(m, r, key); }
      k, from, start := 0, end, r.burst as real;
      if LevelOf(m, r, key, end) != start {
        from, start := t, LevelOf(m, r, key, t);
      }
    } else {
      var op, at := ops[0], ops[0].at;
      OrderedTail(ops, t);
      AfterSane(m, r, t, op);
      var m' := After(m, r, op);
      k, from, start := LevelFrom(m', r, at, ops[1..], key, end);
      SentTail(m, r, ops, k, key);
      if k == 0 && from == at && start == LevelOf(m', r, key, at) {
        assert Sane(m, r, at) by { SaneLater(m, r, t, at); }
        LevelSteps(m, r, key, t, at);
        GainLaws(r, at - t, end - at);
        assert (at - t) + (end - at) == end - t;
        if Forgets(m, op, key) {
          assert LevelOf(m', r, key, at) == r.burst as real by { ForgottenIsFull(m, r, op, key); }
          k := 1;
        } else {
          PaidFor(m, r, op, key);
          start := LevelOf(m, r, key, at);
          if start != r.burst as real {
            from, start := t, LevelOf(m, r, key, t);
          }
        }
      } else {
        k := k + 1;
      }
    }
  }

  lemma SentNone(m: Buckets, r: Rules, key: string)
    ensures Sent(m, r, [], 0, key) == 0
  {
  }

  lemma ForgottenIsFull(m: Buckets, r: Rules, op: Op, key: string)
    requires Forgets(m, op, key)
    ensures LevelOf(After(m, r, op), r, key, op.at) == r.burst as real
  {
  }

  lemma {:induction false} RunTail(m: Buckets, r: Rules, ops: seq<Op>, key: string, k: nat)
    requires k <= |ops|
    ensures Metered(m, r, ops, key) ==> Metered(Final(m, r, ops[..k]), r, ops[k..], key)
    ensures Covered(m, r, ops, key) ==> Covered(Final(m, r, ops[..k]), r, ops[k..], key)
    ensures Final(Final(m, r, ops[..k]), r, ops[k..]) == Final(m, r, ops)
    decreases k
  {
    hide After, Forgets;
    if k == 0 {
      assert ops[..0] == [] && ops[0..] == ops;
    } else {
      assert ops[..k][1..] == ops[1..][..k - 1] && ops[k..] == ops[1..][k - 1..];
      RunTail(After(m, r, ops[0]), r, ops[1..], key, k - 1);
    }
  }

  /** Every window up to now would stay within the burst and what the window earns with n more. */
  ghost predicate Fits(r: Rules, ops: seq<Op>, key: string, n: nat, end: real) {
    forall k: nat, from: real | IsWindow(ops, 0.0, k, from, end) ::
      (Sent(map[], r, ops, k, key) + n) as real <= r.burst as real + Gain(r, end - from)
  }

  lemma WindowFits(r: Rules, ops: seq<Op>, key: string, n: nat, end: real, k: nat, from: real)
    requires Limits(r) && InWindow(r, ops, key, end) && Covered(map[], r, ops, key)
    requires n as real <= LevelOf(Final(map[], r, ops), r, key, end) && IsWindow(ops, 0.0, k, from, end)
    ensures (Sent(map[], r, ops, k, key) + n) as real <= r.burst as real + Gain(r, end - from)
  {
    hide Gain, Metered, Covered, LevelOf, Admitted, Final, Sane;
    var m := Final(map[], r, ops[..k]);
    RunTail(map[], r, ops, key, k);
    assert Sane(m, r, from) by {
      NoneSane(r, 0.0);
      FinalSane(map[], r, 0.0, ops[..k]);
      SaneLater(m, r, if k == 0 then 0.0 else ops[k - 1].at, from);
    }
    WindowPaid(m, r, from, ops[k..], key, end);
    LevelOfGrows(m, r, key, from, from);
  }

  /** After any run from nothing tracked: a request that keeps every window within the burst and its
      earnings is admitted, and, unless an early eviction refilled the stream, only such a request. */
  lemma AdmitIff(r: Rules, ops: seq<Op>, key: string, n: nat, end: real)
    requires Limits(r) && InWindow(r, ops, key, end)
    requires key in Final(map[], r, ops) || |Final(map[], r, ops)| < MAX_LIMITER_ENTRIES
    ensures Fits(r, ops, key, n, end) ==> Allowed(Final(map[], r, ops), key, n, r, end).1
    ensures Covered(map[], r, ops, key) ==>
              (Allowed(Final(map[], r, ops), key, n, r, end).1 <==> Fits(r, ops, key, n, end))
  {
    hide Gain, Metered, Covered, LevelOf, Final, Sane, Allowed, Sent;
    var m := Final(map[], r, ops);
    NoneSane(r, 0.0);
    FinalSane(map[], r, 0.0, ops);
    SaneLater(m, r, if ops == [] then 0.0 else ops[|ops| - 1].at, end);
    LevelAdmits(m, r, key, n, end);
    if n as real <= LevelOf(m, r, key, end) {
      if Covered(map[], r, ops, key) {
        forall k: nat, from: real | IsWindow(ops, 0.0, k, from, end)
          ensures (Sent(map[], r, ops, k, key) + n) as real <= r.burst as real + Gain(r, end - from)
        {
          WindowFits(r, ops, key, n, end, k, from);
        }
      }
    } else {
      var k, from, start := LevelFrom(map[], r, 0.0, ops, key, end);
      assert LevelOf(map[], r, key, 0.0) == r.burst as real by { NoneFull(r, key, 0.0); }
    }
  }

  lemma NoneFull(r: Rules, key: string, t: real)
    ensures LevelOf(map[], r, key, t) == r.burst as real
  {
  }

  // ---- Eviction ----

  /** The same run with nobody evicting. */
  function Unevicted(ops: seq<Op>): seq<Op> {
    if ops == [] then [] else (if ops[0].Allow? then [ops[0]] else []) + Unevicted(ops[1..])
  }

  /** All streams of a run are among these, and they can all be tracked. */
  ghost predicate Few(ops: seq<Op>, keys: set<string>) {
    |keys| <= MAX_LIMITER_ENTRIES && forall op | op in ops && op.Allow? :: op.key in keys
  }

  /** m is m' with some full buckets left out. */
  ghost predicate Stands(m: Buckets, m': Buckets, r: Rules, t: real) {
    && m.Keys <= m'.Keys
    && (forall k | k in m :: m[k] == m'[k])
    && (forall k | k in m' && k !in m :: Level(m'[k], r, t) == r.burst as real)
  }

  lemma StandsLater(m: Buckets, m': Buckets, r: Rules, t: real, t': real)
    requires Limits(r) && Sane(m', r, t) && Stands(m, m', r, t) && t <= t'
    ensures Stands(m, m', r, t')
  {
    forall k | k in m' && k !in m ensures Level(m'[k], r, t') == r.burst as real {
      LevelGrows(m'[k], r, t, t');
    }
  }

  lemma Subset(a: set<string>, b: set<string>, k: string)
    requires a <= b && k in b
    ensures |a| <= |b| && (k !in a ==> |a| < |b|)
  {
    SubsetSize(a, b);
    if k !in a {
      SubsetSize(a, b - {k});
    }
  }

  /** A full bucket answers as a new one would. */
  lemma AllowStands(m: Buckets, m': Buckets, r: Rules, op: Op, keys: set<string>)
    requires op.Allow? && Limits(r) && Sane(m', r, op.at) && Stands(m, m', r, op.at)
    requires m'.Keys <= keys && |keys| <= MAX_LIMITER_ENTRIES && op.key in keys
    ensures Stands(After(m, r, op), After(m', r, op), r, op.at)
    ensures Allowed(m, op.key, op.n, r, op.at).1 == Allowed(m', op.key, op.n, r, op.at).1
    ensures After(m', r, op).Keys <= keys
  {
    var key, at := op.key, op.at;
    Subset(m'.Keys, keys, key);
    Subset(m.Keys, keys, key);
    assert |m.Keys| == |m| && |m'.Keys| == |m'|;
    if key in m' {
      RefillSane(m'[key], r, at, at);
    }
    var full := Found(map[], key, r, at);
    assert SaneBucket(full, r, at);
    RefillSane(full, r, at, at);
    assert Refill(Found(m, key, r, at), r, at) == Refill(Found(m', key, r, at), r, at);
  }

  lemma EvictStands(m: Buckets, m': Buckets, r: Rules, at: real)
    requires Limits(r) && r.burst as real <= Gain(r, BUCKET_TTL) && Sane(m', r, at) && Stands(m, m', r, at)
    ensures Stands(Evicted(m, at - BUCKET_TTL), m', r, at)
  {
    hide Level;
    forall k | k in m && k !in Evicted(m, at - BUCKET_TTL) ensures Level(m'[k], r, at) == r.burst as real {
      IdleIsFull(m'[k], r, at);
    }
  }

  lemma {:induction false} SameAnswers(m: Buckets, m': Buckets, r: Rules, t: real, ops: seq<Op>, keys: set<string>)
    requires Limits(r) && r.burst as real <= Gain(r, BUCKET_TTL)
    requires Sane(m', r, t) && Stands(m, m', r, t) && Ordered(ops, t) && Few(ops, keys) && m'.Keys <= keys
    ensures Answers(m, r, ops) == Answers(m', r, Unevicted(ops))
    decreases |ops|
  {
    hide Stands, Sane, Ordered, Gain, Allowed, Evicted;
    if ops != [] {
      var op := ops[0];
      OrderedTail(ops, t);
      StandsLater(m, m', r, t, op.at);
      SaneLater(m', r, t, op.at);
      assert op in ops && Few(ops[1..], keys);
      if op.Allow? {
        AllowStands(m, m', r, op, keys);
        AfterSane(m', r, t, op);
        SameAnswers(After(m, r, op), After(m', r, op), r, op.at, ops[1..], keys);
        assert ([op] + Unevicted(ops[1..]))[1..] == Unevicted(ops[1..]);
      } else {
        EvictStands(m, m', r, op.at);
        SameAnswers(After(m, r, op), m', r, op.at, ops[1..], keys);
        assert [] + Unevicted(ops[1..]) == Unevicted(ops[1..]);
        assert [] + Answers(After(m, r, op), r, ops[1..]) == Answers(After(m, r, op), r, ops[1..]);
      }
    }
  }

  /** A run with an eviction that shows, when the burst takes longer to earn than the lifetime. */
  function Telltale(r: Rules, key: string, gap: real): seq<Op>
    requires Limits(r)
  {
    [Allow(key, r.burst, 0.0), Evict(BUCKET_TTL + gap), Allow(key, r.burst, BUCKET_TTL + gap)]
  }

  lemma TelltaleShows(r: Rules, gap: real)
    requires Limits(r) && gap > 0.0 && Gain(r, BUCKET_TTL + gap) < r.burst as real
    ensures Answers(map[], r, Telltale(r, "", gap)) != Answers(map[], r, Unevicted(Telltale(r, "", gap)))
  {
    var ops := Telltale(r, "", gap);
    var at := BUCKET_TTL + gap;
    var spent := map["" := Bucket(0.0, 0.0, 0.0)];
    GainLaws(r, 0.0, at);
    assert After(map[], r, ops[0]) == spent && Admits(map[], r, ops[0], "") == r.burst;
    assert After(spent, r, ops[1]) == map[];
    assert ops[1..] == [ops[1], ops[2]] && ops[1..][1..] == [ops[2]] && ops[2..] == [ops[2]];
    assert Unevicted([ops[2]]) == [ops[2]];
    assert Unevicted(ops[1..]) == [ops[2]];
    assert Unevicted(ops) == [ops[0], ops[2]];
    assert Allowed(map[], "", r.burst, r, at).1;
    assert !Allowed(spent, "", r.burst, r, at).1;
    assert Answers(map[], r, [ops[2]]) == [true];
    assert Answers(spent, r, ops[1..]) == [true];
    assert Answers(spent, r, [ops[2]]) == [false];
    assert [ops[0], ops[2]][1..] == [ops[2]];
    assert Answers(map[], r, ops) == [true, true];
    assert Answers(map[], r, Unevicted(ops)) == [true, false];
  }

  /** Eviction can never be noticed, over runs that stay within the cap, exactly when the burst is
      earned within the bucket's lifetime. */
  lemma EvictionLaw(r: Rules)
    requires Limits(r)
    ensures r.burst as real <= Gain(r, BUCKET_TTL)
            <==> forall ops, keys | Ordered(ops, 0.0) && Few(ops, keys) ::
                   Answers(map[], r, ops) == Answers(map[], r, Unevicted(ops))
  {
    if r.burst as real <= Gain(r, BUCKET_TTL) {
      forall ops, keys | Ordered(ops, 0.0) && Few(ops, keys)
        ensures Answers(map[], r, ops) == Answers(map[], r, Unevicted(ops))
      {
        SameAnswers(map[], map[], r, 0.0, ops, keys);
      }
    } else {
      var gap := TelltaleGap(r);
      TelltaleShows(r, gap);
      var ops := Telltale(r, "", gap);
      assert Ordered(ops, 0.0) && Few(ops, {""});
    }
  }

  lemma TelltaleGap(r: Rules) returns (gap: real)
    requires Limits(r) && r.burst as real > Gain(r, BUCKET_TTL)
    ensures gap > 0.0 && Gain(r, BUCKET_TTL + gap) < r.burst as real
  {
    var rate := r.rate as real;
    var room := r.burst as real - Gain(r, BUCKET_TTL);
    gap := room / (2.0 * rate);
    assert gap * rate == room / 2.0;
    GainLaws(r, BUCKET_TTL, gap);
  }
}
