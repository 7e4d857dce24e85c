/**
  bridge/src/ratelimit.rs: a token bucket for each tool. Time is a number of
  nanoseconds that the clock hands in and that never goes back.
 */
module RateLimiter {
  import opened Text

  const U64: nat := 0x1_0000_0000_0000_0000

  /** What a limiter is made with; `capacity` is at least one. */
  datatype Config = Config(capacity: nat, interval: nat)

  predicate ValidConfig(c: Config) { 0 < c.capacity < U32 }

  datatype Bucket = Bucket(tokens: nat, lastRefill: nat)

  function Min(a: nat, b: nat): nat { if a < b then a else b }

  function Elapsed(b: Bucket, now: nat): nat { if now > b.lastRefill then now - b.lastRefill else 0 }

  /** Whole intervals since the last refill, before any cast. */
  function Intervals(c: Config, b: Bucket, now: nat): nat
    requires c.interval > 0
  {
    Elapsed(b, now) / c.interval
  }

  /** Refill with the two casts of the source: to 64 bits for the gain, to 32 for the advance. */
  function Refill(c: Config, b: Bucket, now: nat): Bucket {
    if c.interval == 0 || b.tokens >= c.capacity then b
    else
      var n := Intervals(c, b, now) % U64;
      if n == 0 then b
      else Bucket(b.tokens + Min(n, c.capacity - b.tokens), b.lastRefill + c.interval * (n % U32))
  }

  /** One call of try_acquire on one bucket, made on first sight. */
  datatype Spent = Spent(bucket: Bucket, ok: bool)

  function Spend(c: Config, b: Option<Bucket>, now: nat): Spent {
    var r := Refill(c, if b.None? then Bucket(c.capacity, now) else b.value, now);
    if r.tokens > 0 then Spent(r.(tokens := r.tokens - 1), true) else Spent(r, false)
  }

  // ------------------------------------------------------------------
  // The limiter
  // ------------------------------------------------------------------

  function Look(m: map<string, Bucket>, tool: string): Option<Bucket> {
    if tool in m then Some(m[tool]) else None
  }

  function Acquired(c: Config, m: map<string, Bucket>, tool: string, now: nat): map<string, Bucket> {
    m[tool := Spend(c, Look(m, tool), now).bucket]
  }

  class RateLimiter {
    const config: Config
    var buckets: map<string, Bucket>

    constructor (capacity: nat, interval: nat)
      requires capacity < U32
      ensures config == Config(if capacity < 1 then 1 else capacity, interval) && buckets == map[]
      ensures ValidConfig(config)
    {
      config := Config(if capacity < 1 then 1 else capacity, interval);
      buckets := map[];
    }

    method TryAcquire(tool: string, now: nat) returns (ok: bool)
      modifies this
      ensures ok == Spend(config, Look(old(buckets), tool), now).ok
      ensures buckets == Acquired(config, old(buckets), tool, now)
    {
      var bucket := if tool in buckets then buckets[tool] else Bucket(config.capacity, now);
      if !(config.interval == 0 || bucket.tokens >= config.capacity) {
        var elapsed := if now > bucket.lastRefill then now - bucket.lastRefill else 0;
        var intervals := elapsed / config.interval % U64;
        if intervals != 0 {
          var gained := Min(intervals, config.capacity - bucket.tokens);
          bucket := Bucket(bucket.tokens + gained, bucket.lastRefill + config.interval * (intervals % U32));
        }
      }
      ok := bucket.tokens > 0;
      if ok {
        bucket := bucket.(tokens := bucket.tokens - 1);
      }
      buckets := buckets[tool := bucket];
    }
  }

  // ------------------------------------------------------------------
  // Runs of one bucket
  // ------------------------------------------------------------------

  predicate Ordered(ts: seq<nat>) {
    forall i, j :: 0 <= i < j < |ts| ==> ts[i] <= ts[j]
  }

  /** The calls admitted when a tool is called at the times ts. */
  function Admitted(c: Config, b: Option<Bucket>, ts: seq<nat>): nat
    decreases |ts|
  {
    if |ts| == 0 then 0
    else (if Spend(c, b, ts[0]).ok then 1 else 0) + Admitted(c, Some(Spend(c, b, ts[0]).bucket), ts[1..])
  }

  function After(c: Config, b: Option<Bucket>, ts: seq<nat>): Option<Bucket>
    decreases |ts|
  {
    if |ts| == 0 then b else After(c, Some(Spend(c, b, ts[0]).bucket), ts[1..])
  }

  /** No refill of the run finds 2^32 intervals or more. */
  predicate InRange(c: Config, b: Option<Bucket>, ts: seq<nat>)
    decreases |ts|
  {
    |ts| == 0 || ((b.Some? && c.interval > 0 ==> Intervals(c, b.value, ts[0]) < U32)
                  && InRange(c, Some(Spend(c, b, ts[0]).bucket), ts[1..]))
  }

  // ------------------------------------------------------------------
  // Arithmetic of whole intervals
  // ------------------------------------------------------------------

  /** The time that n intervals take. */
  function Span(n: int, i: nat): int { n * i }

  lemma SpanGrows(a: int, b: int, i: nat)
    requires a <= b
    ensures Span(a, i) <= Span(b, i)
  {}

  lemma SpanAdds(a: int, b: int, i: nat)
    ensures Span(a + b, i) == Span(a, i) + Span(b, i) && Span(a - b, i) == Span(a, i) - Span(b, i) && Span(1, i) == i
    ensures Span(0, i) == 0
  {}

  /** x / i is how many intervals fit in x. */
  lemma Fits(x: nat, i: nat)
    requires i > 0
    ensures Span(x / i, i) <= x < Span(x / i + 1, i)
  {}

  lemma DivBound(n: int, i: nat, x: nat)
    requires i > 0 && Span(n, i) <= x
    ensures n <= x / i
  {
    hide Span;
    Fits(x, i);
    if n > x / i { SpanGrows(x / i + 1, n, i); }
  }

  /**
    A refill that finds fewer than 2^32 intervals uses up exactly the elapsed
    ones; one that finds more leaves time behind that later calls count again.
   */
  lemma RefillUsesElapsed(c: Config, b: Bucket, now: nat)
    requires ValidConfig(c) && c.interval > 0 && b.tokens < c.capacity && b.lastRefill <= now
    ensures var r := Refill(c, b, now);
            && b.lastRefill <= r.lastRefill <= now
            && (now - r.lastRefill < c.interval <==> Intervals(c, b, now) < U32)
  {
    var i, q := c.interval, Intervals(c, b, now);
    var k := Advance(q);
    Credited(c, b, now);
    AdvanceIs(q);
    assert q == (now - b.lastRefill) / i;
    hide *;
    Fits(now - b.lastRefill, i);
    SpanAdds(k, 1, i);
    SpanGrows(0, k, i);
    SpanAdds(0, 0, i);
    SpanGrows(k, q, i);
    if q > k { SpanGrows(k + 1, q, i); }
  }

  /** How many of n elapsed intervals the reference is moved on by: the low 32 bits. */
  function Advance(n: nat): nat { if n % U64 == 0 then 0 else n % U64 % U32 }

  lemma AdvanceIs(n: nat)
    ensures Advance(n) <= n && (Advance(n) == n <==> n < U32)
  {}

  lemma Credited(c: Config, b: Bucket, now: nat)
    requires ValidConfig(c) && c.interval > 0 && b.tokens < c.capacity && b.lastRefill <= now
    ensures Refill(c, b, now).lastRefill == b.lastRefill + Span(Advance(Intervals(c, b, now)), c.interval)
    ensures Refill(c, b, now).tokens <= b.tokens + Intervals(c, b, now)
  {}

  // ------------------------------------------------------------------
  // The load a bucket lets through
  // ------------------------------------------------------------------

  /** Between calls a bucket is never full, and its reference is never in the future. */
  lemma SpentIsBelowCapacity(c: Config, b: Option<Bucket>, now: nat)
    requires ValidConfig(c) && (b.Some? ==> b.value.tokens < c.capacity && b.value.lastRefill <= now)
    ensures Spend(c, b, now).bucket.tokens < c.capacity && Spend(c, b, now).bucket.lastRefill <= now
  {
    if b.Some? && c.interval > 0 { RefillUsesElapsed(c, b.value, now); }
  }

  lemma SpendIs(c: Config, b: Bucket, now: nat)
    ensures var (s, r) := (Spend(c, Some(b), now), Refill(c, b, now));
            s.bucket.lastRefill == r.lastRefill && s.bucket.tokens + One(s.ok) == r.tokens
    ensures c.interval == 0 ==> Refill(c, b, now) == b
  {
    hide Refill;
    assert c.interval == 0 ==> Refill(c, b, now) == b by { NoRefill(c, b, now); }
  }

  lemma NoRefill(c: Config, b: Bucket, now: nat)
    ensures c.interval == 0 ==> Refill(c, b, now) == b
  {}

  /** A call pays one token; a refill pays for each token with an interval of the past. */
  lemma SpendPays(c: Config, b: Bucket, now: nat)
    requires ValidConfig(c) && b.tokens < c.capacity && b.lastRefill <= now
    requires c.interval > 0 ==> Intervals(c, b, now) < U32
    ensures var s := Spend(c, Some(b), now);
            && b.lastRefill <= s.bucket.lastRefill <= now
            && (c.interval > 0 ==> now - s.bucket.lastRefill < c.interval)
            && Span(s.bucket.tokens + One(s.ok), c.interval) <= Span(b.tokens, c.interval) + (s.bucket.lastRefill - b.lastRefill)
            && (c.interval == 0 ==> s.bucket.tokens + One(s.ok) == b.tokens)
  {
    hide Span, Refill, Spend, Advance;
    SpendIs(c, b, now);
    if c.interval > 0 {
      var n := Intervals(c, b, now);
      AdvanceIs(n);
      RefillUsesElapsed(c, b, now);
      Credited(c, b, now);
      SpanGrows(Refill(c, b, now).tokens, b.tokens + n, c.interval);
      SpanAdds(b.tokens, n, c.interval);
    }
  }

  lemma RestOf(ts: seq<nat>, first: nat, last: nat)
    requires |ts| > 0 && Ordered(ts) && first <= ts[0] && ts[|ts| - 1] <= last
    ensures Ordered(ts[1..]) && ts[0] <= last && (|ts| > 1 ==> ts[0] <= ts[1..][0] && ts[1..][|ts| - 2] <= last)
  {}

  /** From a bucket in use, the tokens in hand and the intervals to come bound every admission. */
  lemma {:induction false} AdmittedPays(c: Config, b: Bucket, ts: seq<nat>, last: nat)
    requires ValidConfig(c) && b.tokens < c.capacity && Ordered(ts) && InRange(c, Some(b), ts)
    requires b.lastRefill <= last && (|ts| > 0 ==> b.lastRefill <= ts[0] && ts[|ts| - 1] <= last)
    ensures Span(Admitted(c, Some(b), ts), c.interval) <= Span(b.tokens, c.interval) + (last - b.lastRefill)
    ensures c.interval == 0 ==> Admitted(c, Some(b), ts) <= b.tokens
    decreases |ts|
  {
    hide Span, Spend, Refill;
    if |ts| == 0 {
      SpanGrows(0, b.tokens, c.interval);
      SpanAdds(0, 0, c.interval);
    } else {
      var s := Spend(c, Some(b), ts[0]);
      SpendPays(c, b, ts[0]);
      SpentIsBelowCapacity(c, Some(b), ts[0]);
      RestOf(ts, b.lastRefill, last);
      AdmittedPays(c, s.bucket, ts[1..], last);
      SpanAdds(One(s.ok), Admitted(c, Some(s.bucket), ts[1..]), c.interval);
      SpanAdds(s.bucket.tokens, One(s.ok), c.interval);
    }
  }

  /**
    Since a bucket was created by its first call, the admissions by any time are
    at most the capacity and one for each whole interval since.
   */
  lemma AdmittedSinceCreation(c: Config, ts: seq<nat>)
    requires ValidConfig(c) && |ts| > 0 && Ordered(ts) && InRange(c, None, ts)
    ensures Admitted(c, None, ts) <= c.capacity + if c.interval == 0 then 0 else (ts[|ts| - 1] - ts[0]) / c.interval
  {
    var last, s := ts[|ts| - 1], Spend(c, None, ts[0]);
    RestOf(ts, ts[0], last);
    FirstSpend(c, ts[0]);
    hide Span, Spend, Refill;
    AdmittedPays(c, s.bucket, ts[1..], last);
    if c.interval > 0 {
      var a := Admitted(c, Some(s.bucket), ts[1..]);
      SpanAdds(a, s.bucket.tokens, c.interval);
      DivBound(a - s.bucket.tokens, c.interval, last - ts[0]);
    }
  }

  lemma FirstSpend(c: Config, now: nat)
    requires ValidConfig(c)
    ensures Spend(c, None, now) == Spent(Bucket(c.capacity - 1, now), true)
  {}

  /** The least n whose intervals cover d. */
  function CeilDiv(d: nat, i: nat): nat
    requires i > 0
  {
    (d + i - 1) / i
  }

  /**
    In any window of length d the admissions are at most the capacity and one for
    each interval begun: the first refill of the window can be up to an interval
    old, and no more, because no bucket is full between calls.
   */
  lemma AdmittedInWindow(c: Config, b: Bucket, ts: seq<nat>, d: nat)
    requires ValidConfig(c) && b.tokens < c.capacity && |ts| > 0 && Ordered(ts) && InRange(c, Some(b), ts)
    requires b.lastRefill <= ts[0] && ts[|ts| - 1] <= ts[0] + d
    ensures Admitted(c, Some(b), ts) <= c.capacity + if c.interval == 0 then 0 else CeilDiv(d, c.interval)
  {
    hide Span, Spend, Refill;
    var last, s := ts[|ts| - 1], Spend(c, Some(b), ts[0]);
    var i := c.interval;
    SpendPays(c, b, ts[0]);
    SpentIsBelowCapacity(c, Some(b), ts[0]);
    RestOf(ts, ts[0], last);
    AdmittedPays(c, s.bucket, ts[1..], last);
    WithinCapacity(c, Some(b), ts[0]);
    if i > 0 {
      var a := Admitted(c, Some(s.bucket), ts[1..]);
      SpanAdds(a, s.bucket.tokens, i);
      DivBound(a - s.bucket.tokens, i, d + i - 1);
    }
  }

  lemma WithinCapacity(c: Config, b: Option<Bucket>, now: nat)
    requires ValidConfig(c) && (b.Some? ==> b.value.tokens < c.capacity)
    ensures var s := Spend(c, b, now); s.bucket.tokens + One(s.ok) <= c.capacity
  {
    if b.Some? { SpendIs(c, b.value, now); }
  }

  /** A run is in range when it is shorter than 2^32 intervals. */
  lemma {:induction false} ShortRunIsInRange(c: Config, b: Option<Bucket>, ts: seq<nat>, first: nat)
    requires ValidConfig(c) && c.interval > 0 && Ordered(ts)
    requires b.Some? ==> b.value.tokens < c.capacity && first <= b.value.lastRefill
    requires |ts| > 0 ==> (b.Some? ==> b.value.lastRefill <= ts[0]) && first <= ts[0]
    requires |ts| > 0 ==> ts[|ts| - 1] < first + Span(U32, c.interval)
    ensures InRange(c, b, ts)
    decreases |ts|
  {
    hide Span, Spend, Refill;
    if |ts| > 0 {
      var t := ts[0];
      if b.Some? {
        Fits(t - b.value.lastRefill, c.interval);
        if Intervals(c, b.value, t) >= U32 { SpanGrows(U32, Intervals(c, b.value, t), c.interval); }
        RefillUsesElapsed(c, b.value, t);
        SpendIs(c, b.value, t);
      } else {
        FirstSpend(c, t);
      }
      SpentIsBelowCapacity(c, b, t);
      RestOf(ts, t, ts[|ts| - 1]);
      ShortRunIsInRange(c, Some(Spend(c, b, t).bucket), ts[1..], first);
    }
  }

  // ------------------------------------------------------------------
  // The bounds on clock times
  // ------------------------------------------------------------------

  lemma {:induction false} InRangeJoins(c: Config, b: Option<Bucket>, xs: seq<nat>, ys: seq<nat>)
    ensures InRange(c, b, xs + ys) <==> InRange(c, b, xs) && InRange(c, After(c, b, xs), ys)
    decreases |xs|
  {
    hide Spend, Intervals;
    if |xs| == 0 {
      assert xs + ys == ys;
    } else {
      assert (xs + ys)[1..] == xs[1..] + ys;
      InRangeJoins(c, Some(Spend(c, b, xs[0]).bucket), xs[1..], ys);
    }
  }

  lemma {:induction false} AfterIsSane(c: Config, b: Option<Bucket>, ts: seq<nat>, now: nat)
    requires ValidConfig(c) && Ordered(ts) && (|ts| > 0 ==> ts[|ts| - 1] <= now)
    requires b.Some? ==> b.value.tokens < c.capacity && b.value.lastRefill <= if |ts| > 0 then ts[0] else now
    ensures var a := After(c, b, ts);
            (|ts| > 0 ==> a.Some?) && (a.Some? ==> a.value.tokens < c.capacity && a.value.lastRefill <= now)
    decreases |ts|
  {
    hide Spend;
    if |ts| > 0 {
      SpentIsBelowCapacity(c, b, ts[0]);
      RestOf(ts, ts[0], now);
      AfterIsSane(c, Some(Spend(c, b, ts[0]).bucket), ts[1..], now);
    }
  }

  /**
    The window bound on clock times alone: a tool called at the times ts, the last
    within 2^32 intervals of the first, has in any window from its i-th to its j-th
    call at most the capacity and one admission for each interval begun.
   */
  lemma WindowOfLife(c: Config, ts: seq<nat>, i: nat, j: nat)
    requires ValidConfig(c) && c.interval > 0 && Ordered(ts) && 0 < i < j <= |ts|
    requires ts[|ts| - 1] < ts[0] + Span(U32, c.interval)
    ensures Admitted(c, After(c, None, ts[..i]), ts[i..j]) <= c.capacity + CeilDiv(ts[j - 1] - ts[i], c.interval)
  {
    hide Span, Admitted, After, InRange, CeilDiv;
    var xs, ys := ts[..i], ts[i..j];
    ShortRunIsInRange(c, None, ts, ts[0]);
    assert ts == ts[..j] + ts[j..] && ts[..j] == xs + ys;
    InRangeJoins(c, None, ts[..j], ts[j..]);
    InRangeJoins(c, None, xs, ys);
    AfterIsSane(c, None, xs, ts[i]);
    assert Ordered(ys) && ys[0] == ts[i] && ys[|ys| - 1] == ts[j - 1];
    AdmittedInWindow(c, After(c, None, xs).value, ys, ts[j - 1] - ts[i]);
  }

  /** The same from the first call on, where the bound counts whole intervals. */
  lemma FrontOfLife(c: Config, ts: seq<nat>, j: nat)
    requires ValidConfig(c) && c.interval > 0 && Ordered(ts) && 0 < j <= |ts|
    requires ts[|ts| - 1] < ts[0] + Span(U32, c.interval)
    ensures Admitted(c, None, ts[..j]) <= c.capacity + (ts[j - 1] - ts[0]) / c.interval
  {
    hide Span, Admitted, After, InRange;
    ShortRunIsInRange(c, None, ts, ts[0]);
    assert ts == ts[..j] + ts[j..];
    InRangeJoins(c, None, ts[..j], ts[j..]);
    AdmittedSinceCreation(c, ts[..j]);
  }

  // ------------------------------------------------------------------
  // The bounds are exact
  // ------------------------------------------------------------------

  /** n calls at one instant. */
  function Burst(t: nat, n: nat): seq<nat> { seq(n, _ => t) }

  /** n calls one interval apart, the first an interval after t. */
  function Paced(t: nat, i: nat, n: nat): seq<nat> { seq(n, k requires 0 <= k < n => t + (k + 1) * i) }

  lemma {:induction false} RunsJoin(c: Config, b: Option<Bucket>, xs: seq<nat>, ys: seq<nat>)
    ensures Admitted(c, b, xs + ys) == Admitted(c, b, xs) + Admitted(c, After(c, b, xs), ys)
    ensures After(c, b, xs + ys) == After(c, After(c, b, xs), ys)
    decreases |xs|
  {
    hide Spend;
    if |xs| == 0 {
      assert xs + ys == ys;
    } else {
      assert (xs + ys)[1..] == xs[1..] + ys;
      RunsJoin(c, Some(Spend(c, b, xs[0]).bucket), xs[1..], ys);
    }
  }

  /** Calls at one instant take the tokens in hand and no more. */
  lemma {:induction false} BurstSpends(c: Config, b: Bucket, t: nat, n: nat)
    requires ValidConfig(c) && b.lastRefill <= t < b.lastRefill + c.interval && b.tokens < c.capacity
    ensures Admitted(c, Some(b), Burst(t, n)) == Min(n, b.tokens)
    ensures After(c, Some(b), Burst(t, n)) == Some(b.(tokens := b.tokens - Min(n, b.tokens)))
    decreases n
  {
    if n > 0 {
      assert Burst(t, n)[1..] == Burst(t, n - 1);
      assert Intervals(c, b, t) == 0;
      BurstSpends(c, Spend(c, Some(b), t).bucket, t, n - 1);
    }
  }

  /** An empty bucket admits one call an interval for ever. */
  lemma {:induction false} PacedSpends(c: Config, t: nat, n: nat)
    requires ValidConfig(c) && c.interval > 0
    ensures Admitted(c, Some(Bucket(0, t)), Paced(t, c.interval, n)) == n
    decreases n
  {
    if n > 0 {
      var i := c.interval;
      var ts := Paced(t, i, n);
      assert ts[0] == t + i;
      assert Intervals(c, Bucket(0, t), t + i) == 1 by { assert i / i == 1; }
      assert Spend(c, Some(Bucket(0, t)), t + i).bucket == Bucket(0, t + i);
      forall k | 0 <= k < n - 1 ensures ts[1..][k] == Paced(t + i, i, n - 1)[k] {
        assert (k + 2) * i == i + (k + 1) * i;
      }
      assert ts[1..] == Paced(t + i, i, n - 1);
      PacedSpends(c, t + i, n - 1);
    }
  }

  /** AdmittedInWindow is attained: capacity and one for each of the m intervals begun. */
  lemma WindowBoundIsAttained(c: Config, m: nat)
    requires ValidConfig(c) && c.interval > 0 && m > 0
    ensures var (i, b) := (c.interval, Spend(c, None, 0).bucket);
            var ts := Burst(2 * i - 1, c.capacity) + Paced(i, i, m);
            && Admitted(c, Some(b), ts) == c.capacity + CeilDiv(ts[|ts| - 1] - ts[0], i)
            && CeilDiv(ts[|ts| - 1] - ts[0], i) == m
  {
    hide Spend, Admitted, After, Paced, Burst, CeilDiv, Refill;
    var i, t := c.interval, 2 * c.interval - 1;
    var b, k := Bucket(c.capacity - 1, 0), c.capacity - 1;
    FirstSpend(c, 0);
    FullRefill(c);
    BurstSpends(c, Bucket(k, i), t, k);
    PacedSpends(c, i, m);
    PacedEnds(i, m);
    BurstAndPace(t, i, m, c.capacity);
    RunsJoin(c, Some(b), [t] + Burst(t, k), Paced(i, i, m));
    RunsJoin(c, Some(b), [t], Burst(t, k));
    SingleRun(c, Some(b), t);
    CapacityIs(k, c.capacity);
  }

  lemma BurstAndPace(t: nat, i: nat, m: nat, n: nat)
    requires m > 0 && n > 0
    ensures Burst(t, n) == [t] + Burst(t, n - 1)
    ensures var ts := Burst(t, n) + Paced(i, i, m); |ts| == n + m && ts[0] == t && ts[|ts| - 1] == Paced(i, i, m)[m - 1]
  {}

  lemma CapacityIs(k: nat, n: nat)
    ensures Min(k, k) == k && One(true) == 1
  {}

  lemma SingleRun(c: Config, b: Option<Bucket>, t: nat)
    ensures var s := Spend(c, b, t); Admitted(c, b, [t]) == One(s.ok) && After(c, b, [t]) == Some(s.bucket)
  {
    hide Spend;
    assert Admitted(c, Some(Spend(c, b, t).bucket), []) == 0;
  }

  /** The first bucket, refilled just before its second interval ends. */
  lemma FullRefill(c: Config)
    requires ValidConfig(c) && c.interval > 0
    ensures Spend(c, Some(Bucket(c.capacity - 1, 0)), 2 * c.interval - 1) == Spent(Bucket(c.capacity - 1, c.interval), true)
  {
    var i := c.interval;
    assert (2 * i - 1) / i == 1 by { assert (i + (i - 1)) / i == 1; }
  }

  lemma PacedEnds(i: nat, m: nat)
    requires i > 0 && m > 0
    ensures Paced(i, i, m)[m - 1] == (m + 1) * i && CeilDiv((m + 1) * i - (2 * i - 1), i) == m
  {
    assert m * i + i == (m + 1) * i;
    MultipleFits(m, i);
    assert (m + 1) * i - (2 * i - 1) + i - 1 == m * i;
  }

  lemma MultipleFits(m: nat, i: nat)
    requires i > 0
    ensures m * i / i == m
  {
    hide Span;
    SpanIs(m, i);
    SpanGrows(0, m, i);
    SpanAdds(0, 0, i);
    var q := Span(m, i) / i;
    Fits(Span(m, i), i);
    if q > m { SpanGrows(m + 1, q, i); SpanAdds(m, 1, i); }
    if q < m { SpanGrows(q + 1, m, i); }
  }

  lemma SpanIs(n: int, i: nat)
    ensures Span(n, i) == n * i
  {}

  /** AdmittedSinceCreation is attained at every whole interval. */
  lemma CreationBoundIsAttained(c: Config, m: nat)
    requires ValidConfig(c) && c.interval > 0
    ensures Admitted(c, None, [0] + Burst(0, c.capacity - 1) + Paced(0, c.interval, m)) == c.capacity + m
    ensures m > 0 ==> Paced(0, c.interval, m)[m - 1] / c.interval == m
  {
    var k := c.capacity - 1;
    FirstSpend(c, 0);
    BurstSpends(c, Bucket(k, 0), 0, k);
    PacedSpends(c, 0, m);
    MultipleFits(m, c.interval);
    hide Spend, Admitted, After;
    RunsJoin(c, None, [0] + Burst(0, k), Paced(0, c.interval, m));
    RunsJoin(c, None, [0], Burst(0, k));
    SingleRun(c, None, 0);
  }

  // ------------------------------------------------------------------
  // What the limiter owes a tool
  // ------------------------------------------------------------------

  /** The whole intervals in x. */
  function Whole(x: int, i: nat): int
    requires i > 0
  {
    x / i
  }

  /** A refill that finds fewer than 2^32 intervals gives a token for each, up to the capacity. */
  lemma RefillGives(c: Config, b: Bucket, now: nat)
    requires c.interval > 0 && b.tokens < c.capacity && Intervals(c, b, now) < U32
    ensures var (n, r) := (Intervals(c, b, now), Refill(c, b, now));
            r.tokens == Min(c.capacity, b.tokens + n) && r.lastRefill == b.lastRefill + Span(n, c.interval)
  {
    hide Intervals, Span;
    SpanIs(Intervals(c, b, now), c.interval);
  }

  /** One call, by the whole intervals since the reference. */
  lemma SpendGives(c: Config, b: Bucket, now: nat)
    requires ValidConfig(c) && c.interval > 0 && b.tokens < c.capacity && b.lastRefill <= now
    requires Whole(now - b.lastRefill, c.interval) < U32
    ensures var (n, s) := (Whole(now - b.lastRefill, c.interval), Spend(c, Some(b), now));
            && 0 <= n && s.bucket.tokens + One(s.ok) == Min(c.capacity, b.tokens + n)
            && (s.ok <==> b.tokens + n > 0)
            && s.bucket.lastRefill == b.lastRefill + Span(n, c.interval)
            && s.bucket.lastRefill <= now < s.bucket.lastRefill + c.interval
  {
    var n := Whole(now - b.lastRefill, c.interval);
    assert n == Intervals(c, b, now);
    RefillGives(c, b, now);
    assert Spend(c, Some(b), now) == SpentOf(Refill(c, b, now));
    hide Intervals, Whole, Span, Refill, Spend;
    WholeIs(now - b.lastRefill, c.interval);
    SpanAdds(n, 1, c.interval);
  }

  function SpentOf(r: Bucket): Spent {
    if r.tokens > 0 then Spent(r.(tokens := r.tokens - 1), true) else Spent(r, false)
  }

  /** However long a bucket was left alone, calls at one instant find all the tokens that have come back. */
  lemma BurstIsFilled(c: Config, b: Bucket, t: nat, k: nat)
    requires ValidConfig(c) && c.interval > 0 && b.tokens < c.capacity && b.lastRefill <= t
    requires (t - b.lastRefill) / c.interval < U32
    ensures Admitted(c, Some(b), Burst(t, k)) == Min(k, Min(c.capacity, b.tokens + (t - b.lastRefill) / c.interval))
  {
    var n := Whole(t - b.lastRefill, c.interval);
    assert n == (t - b.lastRefill) / c.interval;
    if k > 0 {
      SpendGives(c, b, t);
      var s := Spend(c, Some(b), t);
      SpentIsBelowCapacity(c, Some(b), t);
      BurstSpends(c, s.bucket, t, k - 1);
      assert Burst(t, k)[1..] == Burst(t, k - 1) && Burst(t, k)[0] == t;
      assert Admitted(c, Some(b), Burst(t, k)) == One(s.ok) + Admitted(c, Some(s.bucket), Burst(t, k - 1));
      hide Spend, Span, Whole, Admitted;
    }
  }

  /** In no window are there more calls than the capacity and one for each whole interval of it. */
  predicate Conforms(c: Config, ts: seq<nat>)
    requires c.interval > 0
  {
    forall i, j :: 0 <= i <= j < |ts| ==> j - i + 1 <= c.capacity + Whole(ts[j] as int - ts[i], c.interval)
  }

  /** The tokens in hand and the intervals to come pay for the calls up to each. */
  predicate Covers(c: Config, b: Bucket, ts: seq<nat>)
    requires c.interval > 0
  {
    forall j :: 0 <= j < |ts| ==> j + 1 <= b.tokens + Whole(ts[j] - b.lastRefill, c.interval)
  }

  lemma WholeIs(x: int, i: nat)
    requires i > 0
    ensures Span(Whole(x, i), i) <= x < Span(Whole(x, i) + 1, i)
    ensures x >= 0 ==> Whole(x, i) >= 0
  {}

  lemma WholeOf(x: int, q: int, i: nat)
    requires i > 0 && Span(q, i) <= x < Span(q + 1, i)
    ensures Whole(x, i) == q
  {
    hide Span, Whole;
    WholeIs(x, i);
    if q < Whole(x, i) { SpanGrows(q + 1, Whole(x, i), i); }
    if Whole(x, i) < q { SpanGrows(Whole(x, i) + 1, q, i); }
  }

  lemma WholeGrows(x: int, y: int, i: nat)
    requires i > 0 && x <= y
    ensures Whole(x, i) <= Whole(y, i)
  {
    hide Span, Whole;
    WholeIs(x, i);
    WholeIs(y, i);
    if Whole(y, i) < Whole(x, i) { SpanGrows(Whole(y, i) + 1, Whole(x, i), i); }
  }

  lemma WholeLess(x: int, n: int, i: nat)
    requires i > 0
    ensures Whole(x - Span(n, i), i) == Whole(x, i) - n
  {
    hide Span, Whole;
    var q := Whole(x, i);
    WholeIs(x, i);
    SpanAdds(q, n, i);
    SpanAdds(q + 1, n, i);
    WholeOf(x - Span(n, i), q - n, i);
  }

  lemma ConformsLater(c: Config, ts: seq<nat>)
    requires c.interval > 0 && |ts| > 0 && Ordered(ts) && Conforms(c, ts)
    ensures Ordered(ts[1..]) && Conforms(c, ts[1..])
  {
    hide Whole;
    forall k, j | 0 <= k <= j < |ts| - 1 ensures j - k + 1 <= c.capacity + Whole(ts[1..][j] - ts[1..][k], c.interval) {
      assert (j + 1) - (k + 1) + 1 <= c.capacity + Whole(ts[j + 1] - ts[k + 1], c.interval);
    }
  }

  /** After a call that was paid for, the rest still is. */
  lemma StillCovers(c: Config, b: Bucket, ts: seq<nat>)
    requires ValidConfig(c) && c.interval > 0 && b.tokens < c.capacity && |ts| > 0 && Ordered(ts) && b.lastRefill <= ts[0]
    requires Covers(c, b, ts) && Conforms(c, ts) && Whole(ts[0] - b.lastRefill, c.interval) < U32
    ensures var s := Spend(c, Some(b), ts[0]); s.ok && s.bucket.lastRefill <= ts[0] && Covers(c, s.bucket, ts[1..])
  {
    hide Spend, Span, Whole;
    SpendGives(c, b, ts[0]);
    var i, s, n := c.interval, Spend(c, Some(b), ts[0]), Whole(ts[0] - b.lastRefill, c.interval);
    assert 0 + 1 <= b.tokens + Whole(ts[0] - b.lastRefill, i);
    forall j | 0 <= j < |ts| - 1 ensures j + 1 <= s.bucket.tokens + Whole(ts[1..][j] - s.bucket.lastRefill, i) {
      var t := ts[j + 1];
      assert (j + 1) + 1 <= b.tokens + Whole(t - b.lastRefill, i);
      assert (j + 1) - 0 + 1 <= c.capacity + Whole(t - ts[0], i);
      WholeLess(t - b.lastRefill, n, i);
      assert t - b.lastRefill - Span(n, i) == t - s.bucket.lastRefill;
      WholeGrows(t - ts[0], t - s.bucket.lastRefill, i);
    }
  }

  lemma {:induction false} CoveredIsAdmitted(c: Config, b: Bucket, ts: seq<nat>)
    requires ValidConfig(c) && c.interval > 0 && b.tokens < c.capacity && Ordered(ts) && InRange(c, Some(b), ts)
    requires (|ts| > 0 ==> b.lastRefill <= ts[0]) && Covers(c, b, ts) && Conforms(c, ts)
    ensures Admitted(c, Some(b), ts) == |ts|
    decreases |ts|
  {
    if |ts| > 0 {
      assert Whole(ts[0] - b.lastRefill, c.interval) == Intervals(c, b, ts[0]);
      hide Spend, Covers, Conforms, Whole, Intervals;
      StillCovers(c, b, ts);
      ConformsLater(c, ts);
      SpentIsBelowCapacity(c, Some(b), ts[0]);
      CoveredIsAdmitted(c, Spend(c, Some(b), ts[0]).bucket, ts[1..]);
    }
  }

  lemma FirstCovers(c: Config, ts: seq<nat>)
    requires ValidConfig(c) && c.interval > 0 && |ts| > 0 && Conforms(c, ts)
    ensures Covers(c, Bucket(c.capacity - 1, ts[0]), ts[1..])
  {
    hide Whole;
    forall j | 0 <= j < |ts| - 1 ensures j + 1 <= c.capacity - 1 + Whole(ts[1..][j] as int - ts[0], c.interval) {
      assert (j + 1) - 0 + 1 <= c.capacity + Whole(ts[j + 1] as int - ts[0], c.interval);
    }
  }

  /**
    A tool that keeps to its rate is never refused: if in no window of its life it
    makes more calls than the capacity and one for each whole interval, they are all
    admitted.
   */
  lemma ConformingIsAdmitted(c: Config, ts: seq<nat>)
    requires ValidConfig(c) && c.interval > 0 && Ordered(ts) && Conforms(c, ts)
    requires |ts| > 0 ==> ts[|ts| - 1] < ts[0] + Span(U32, c.interval)
    ensures Admitted(c, None, ts) == |ts|
  {
    hide Span, Whole, Spend, Conforms, Covers;
    if |ts| > 0 {
      var b, rest := Bucket(c.capacity - 1, ts[0]), ts[1..];
      ShortRunIsInRange(c, None, ts, ts[0]);
      FirstSpend(c, ts[0]);
      FirstCovers(c, ts);
      ConformsLater(c, ts);
      CoveredIsAdmitted(c, b, rest);
    }
  }

  // ------------------------------------------------------------------
  // Where the range matters
  // ------------------------------------------------------------------

  /**
    After exactly 2^32 idle intervals the 32-bit advance is zero: the bucket is
    filled without its reference moving, so the limiter admits every call.
   */
  lemma {:induction false} StuckRefillAdmitsAll(c: Config, tokens: nat, n: nat)
    requires ValidConfig(c) && c.interval > 0 && tokens < c.capacity
    ensures Admitted(c, Some(Bucket(tokens, 0)), Burst(Span(U32, c.interval), n)) == n
    decreases n
  {
    if n > 0 {
      var t := Span(U32, c.interval);
      StuckSpend(c, tokens);
      assert Burst(t, n)[1..] == Burst(t, n - 1);
      StuckRefillAdmitsAll(c, Spend(c, Some(Bucket(tokens, 0)), t).bucket.tokens, n - 1);
    }
  }

  lemma StuckSpend(c: Config, tokens: nat)
    requires ValidConfig(c) && c.interval > 0 && tokens < c.capacity
    ensures var s := Spend(c, Some(Bucket(tokens, 0)), Span(U32, c.interval));
            s.ok && s.bucket.tokens < c.capacity && s.bucket.lastRefill == 0
  {
    MultipleFits(U32, c.interval);
    assert Intervals(c, Bucket(tokens, 0), Span(U32, c.interval)) == U32;
  }

  // ------------------------------------------------------------------
  // Tools do not share buckets
  // ------------------------------------------------------------------

  datatype Call = Call(tool: string, at: nat)

  function TimesOf(calls: seq<Call>, tool: string): seq<nat> {
    if |calls| == 0 then []
    else (if calls[0].tool == tool then [calls[0].at] else []) + TimesOf(calls[1..], tool)
  }

  /** What a run of the limiter admits of one tool. */
  function AdmittedOf(c: Config, m: map<string, Bucket>, calls: seq<Call>, tool: string): nat
    decreases |calls|
  {
    if |calls| == 0 then 0
    else
      var ok := Spend(c, Look(m, calls[0].tool), calls[0].at).ok;
      One(ok && calls[0].tool == tool)
      + AdmittedOf(c, Acquired(c, m, calls[0].tool, calls[0].at), calls[1..], tool)
  }

  /** However the calls of other tools are mixed in, a tool gets what its own calls alone would get. */
  lemma {:induction false} ToolsAreIndependent(c: Config, m: map<string, Bucket>, calls: seq<Call>, tool: string)
    ensures AdmittedOf(c, m, calls, tool) == Admitted(c, Look(m, tool), TimesOf(calls, tool))
    decreases |calls|
  {
    hide Spend;
    if |calls| > 0 {
      var call := calls[0];
      ToolsAreIndependent(c, Acquired(c, m, call.tool, call.at), calls[1..], tool);
      var rest := TimesOf(calls[1..], tool);
      assert TimesOf(calls, tool) == if call.tool == tool then [call.at] + rest else rest;
      if call.tool == tool { assert ([call.at] + rest)[1..] == rest; }
    }
  }
}
