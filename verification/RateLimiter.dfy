/**
 The per-client token-bucket limiter with garbage collection (proxy/src/rate_limiter.rs), over exact
 real arithmetic: how many requests a window admits, how long a bucket lives, and exactly when the
 collector cannot be noticed.
 */
module RateLimiting {
  import opened Prelude

  const GC_INTERVAL: real := 60.0
  const BUCKET_TTL: real := 120.0

  datatype Bucket = Bucket(tokens: real, lastRefill: real)
  /** What an idle stretch earns, and the burst size that caps a bucket. */
  datatype Config = Config(earn: real -> real, burst: real)
  datatype State = State(buckets: map<string, Bucket>, lastGc: real)
  datatype Call = Call(key: string, now: real)

  /** A limiter that refills `rps` tokens a second. */
  function PerSecond(rps: real, burst: real): Config {
    Config((d: real) => d * rps, burst)
  }

  /** `duration_since`, which is zero for an instant in the future. */
  function Elapsed(now: real, earlier: real): real {
    if now > earlier then now - earlier else 0.0
  }

  function Min(x: real, y: real): real {
    if x < y then x else y
  }

  predicate IsInvalid(key: string) {
    key == "" || exists i :: 0 <= i < |key| && IsWhitespace(key[i])
  }

  /** Malformed client keys share one bucket. */
  function BucketKey(key: string): string {
    if IsInvalid(key) then "invalid" else key
  }

  predicate Due(lastGc: real, now: real) {
    Elapsed(now, lastGc) >= GC_INTERVAL
  }

  predicate Stale(b: Bucket, now: real) {
    Elapsed(now, b.lastRefill) >= BUCKET_TTL
  }

  function Collect(st: State, now: real): State {
    if Due(st.lastGc, now) then State(map k | k in st.buckets && !Stale(st.buckets[k], now) :: st.buckets[k], now)
    else st
  }

  function Refilled(cfg: Config, b: Bucket, now: real): real {
    Min(b.tokens + cfg.earn(Elapsed(now, b.lastRefill)), cfg.burst)
  }

  /** The tokens a client can draw on: a full bucket if it has none. */
  function Available(cfg: Config, b: Option<Bucket>, now: real): real {
    if b.None? then cfg.burst else Refilled(cfg, b.value, now)
  }

  predicate Admits(cfg: Config, b: Option<Bucket>, now: real) {
    Available(cfg, b, now) >= 1.0
  }

  function Touched(cfg: Config, b: Option<Bucket>, now: real): Bucket {
    Bucket(Available(cfg, b, now) - (if Admits(cfg, b, now) then 1.0 else 0.0), now)
  }

  function Lookup(m: map<string, Bucket>, k: string): Option<Bucket> {
    if k in m then Some(m[k]) else None
  }

  function Step(cfg: Config, st: State, c: Call): State {
    var g := Collect(st, c.now);
    var k := BucketKey(c.key);
    State(g.buckets[k := Touched(cfg, Lookup(g.buckets, k), c.now)], g.lastGc)
  }

  function Answer(cfg: Config, st: State, c: Call): bool {
    Admits(cfg, Lookup(Collect(st, c.now).buckets, BucketKey(c.key)), c.now)
  }

  class RateLimiter {
    const rps: real
    const burst: real
    var buckets: map<string, Bucket>
    var lastGc: real

    ghost function Cfg(): Config {
      PerSecond(rps, burst)
    }

    constructor (rps: real, burst: real, now: real)
      ensures this.rps == rps && this.burst == burst && buckets == map[] && lastGc == now
    {
      this.rps, this.burst := rps, burst;
      buckets, lastGc := map[], now;
    }

    /** `now` is the instant sampled before the lock is taken. */
    method CheckAt(key: string, now: real) returns (allowed: bool)
      modifies this
      ensures State(buckets, lastGc) == Step(Cfg(), old(State(buckets, lastGc)), Call(key, now))
      ensures allowed == Answer(Cfg(), old(State(buckets, lastGc)), Call(key, now))
    {
      if Elapsed(now, lastGc) >= GC_INTERVAL {
        buckets := map k | k in buckets && Elapsed(now, buckets[k].lastRefill) < BUCKET_TTL :: buckets[k];
        lastGc := now;
      }
      ghost var g := Collect(old(State(buckets, lastGc)), now);
      assert State(buckets, lastGc) == g;
      var bucketKey := if IsInvalid(key) then "invalid" else key;
      if bucketKey !in buckets {
        buckets := buckets[bucketKey := Bucket(burst, now)];
      }
      var bucket := buckets[bucketKey];
      bucket, allowed := RefillAndSpend(bucket, now);
      EntryIsAvailable(rps, burst, Lookup(g.buckets, bucketKey), now);
      buckets := buckets[bucketKey := bucket];
      assert buckets == g.buckets[bucketKey := bucket];
    }

    /** The second half of the check: refill by the elapsed time, then spend a token if there is one. */
    method RefillAndSpend(bucket: Bucket, now: real) returns (b: Bucket, allowed: bool)
      ensures b == Touched(Cfg(), Some(bucket), now)
      ensures allowed == Admits(Cfg(), Some(bucket), now)
    {
      var elapsed := Elapsed(now, bucket.lastRefill);
      b := Bucket(Min(bucket.tokens + elapsed * rps, burst), now);
      allowed := b.tokens >= 1.0;
      if allowed {
        b := b.(tokens := b.tokens - 1.0);
      }
    }
  }

  /** Entering a full bucket for an absent client offers what the client is due. */
  lemma {:induction false} EntryIsAvailable(rps: real, burst: real, b: Option<Bucket>, now: real)
    ensures var cfg := PerSecond(rps, burst);
            b.None? ==> Available(cfg, Some(Bucket(burst, now)), now) == Available(cfg, b, now)
  {
  }

  // ----- Runs -----

  /** A run of checks, the latest one first. */
  type Run = List<Call>

  function After(cfg: Config, st: State, run: Run): State {
    if run.Nil? then st else Step(cfg, After(cfg, st, run.tail), run.head)
  }

  /** The time of the latest call, or `start` if there is none. */
  ghost function Latest(run: Run, start: real): real {
    if run.Nil? then start else run.head.now
  }

  ghost predicate Nondecreasing(run: Run, start: real) {
    run.Cons? ==> Nondecreasing(run.tail, start) && run.head.now >= Latest(run.tail, start)
  }

  /** What one call does to one client's bucket. */
  lemma {:induction false} StepAt(cfg: Config, st: State, c: Call, k: string)
    ensures Lookup(Collect(st, c.now).buckets, k) == Survivor(st, c.now, k)
    ensures Lookup(Step(cfg, st, c).buckets, k)
         == if BucketKey(c.key) == k then Some(Touched(cfg, Survivor(st, c.now, k), c.now)) else Survivor(st, c.now, k)
    ensures Step(cfg, st, c).lastGc == if Due(st.lastGc, c.now) then c.now else st.lastGc
  {
  }

  /** A client's bucket once the collector has been by, if it was due. */
  function Survivor(st: State, now: real, k: string): Option<Bucket> {
    if Due(st.lastGc, now) && k in st.buckets && Stale(st.buckets[k], now) then None else Lookup(st.buckets, k)
  }

  // ----- Bounds on tokens and on the age of buckets -----

  ghost predicate InRange(cfg: Config, b: Option<Bucket>) {
    b.Some? ==> 0.0 <= b.value.tokens <= cfg.burst
  }

  function Sum(a: real, b: real): real {
    a + b
  }

  /** Idle time earns additively, nothing in no time, and never a negative amount. */
  ghost predicate Steady(cfg: Config) {
    && cfg.earn(0.0) == 0.0
    && (forall a, b {:trigger cfg.earn(a), cfg.earn(b)} :: a <= b ==> cfg.earn(a) <= cfg.earn(b))
    && (forall a, b {:trigger Sum(a, b)} :: cfg.earn(Sum(a, b)) == cfg.earn(a) + cfg.earn(b))
  }

  lemma {:induction false} ProductLaws(a: real, b: real, r: real)
    requires r >= 0.0
    ensures a <= b ==> a * r <= b * r
    ensures (a + b) * r == a * r + b * r
  {
    if a <= b {
      assert 0.0 <= (b - a) * r == b * r - a * r;
    }
  }

  lemma {:induction false} PerSecondMonotone(cfg: Config, rps: real)
    requires rps >= 0.0 && cfg == PerSecond(rps, cfg.burst)
    ensures forall a, b {:trigger cfg.earn(a), cfg.earn(b)} :: a <= b ==> cfg.earn(a) <= cfg.earn(b)
  {
    forall a: real, b: real | a <= b ensures cfg.earn(a) <= cfg.earn(b) {
      ProductLaws(a, b, rps);
    }
  }

  lemma {:induction false} PerSecondAdditive(cfg: Config, rps: real)
    requires rps >= 0.0 && cfg == PerSecond(rps, cfg.burst)
    ensures forall a, b {:trigger Sum(a, b)} :: cfg.earn(Sum(a, b)) == cfg.earn(a) + cfg.earn(b)
  {
    forall a: real, b: real ensures cfg.earn(Sum(a, b)) == cfg.earn(a) + cfg.earn(b) {
      ProductLaws(a, b, rps);
    }
  }

  lemma {:induction false} PerSecondIsSteady(rps: real, burst: real)
    requires rps >= 0.0
    ensures Steady(PerSecond(rps, burst))
    ensures forall d :: PerSecond(rps, burst).earn(d) == d * rps
  {
    PerSecondMonotone(PerSecond(rps, burst), rps);
    PerSecondAdditive(PerSecond(rps, burst), rps);
  }

  ghost predicate IsEarned(cfg: Config, x: real) {
    exists w {:trigger cfg.earn(w)} :: w >= 0.0 && cfg.earn(w) == x
  }

  /** If anything is earned at all, every amount is earned some time. */
  ghost predicate Attains(cfg: Config) {
    cfg.earn(BUCKET_TTL) > 0.0 ==> forall x :: x >= 0.0 ==> IsEarned(cfg, x)
  }

  lemma {:induction false} PerSecondAttains(rps: real, burst: real)
    requires rps >= 0.0
    ensures Attains(PerSecond(rps, burst))
  {
    var cfg := PerSecond(rps, burst);
    if rps > 0.0 {
      forall x: real | x >= 0.0 ensures IsEarned(cfg, x) {
        QuotientEarns(x, rps);
        assert cfg.earn(x / rps) == x;
      }
    }
  }

  lemma {:induction false} QuotientEarns(x: real, rps: real)
    requires x >= 0.0 && rps > 0.0
    ensures x / rps >= 0.0 && (x / rps) * rps == x
  {
  }

  lemma {:induction false} TouchedInRange(cfg: Config, b: Option<Bucket>, now: real)
    requires Steady(cfg) && cfg.burst >= 0.0 && InRange(cfg, b)
    ensures 0.0 <= Available(cfg, b, now) <= cfg.burst
    ensures InRange(cfg, Some(Touched(cfg, b, now)))
  {
    if b.Some? {
      assert cfg.earn(0.0) <= cfg.earn(Elapsed(now, b.value.lastRefill));
    }
  }

  /** In every run every bucket stays within zero and the burst size. */
  lemma {:induction false} TokensStayInRange(cfg: Config, st: State, run: Run, k: string)
    requires Steady(cfg) && cfg.burst >= 0.0 && InRange(cfg, Lookup(st.buckets, k))
    ensures InRange(cfg, Lookup(After(cfg, st, run).buckets, k))
  {
    if run.Cons? {
      var before := After(cfg, st, run.tail);
      TokensStayInRange(cfg, st, run.tail, k);
      StepAt(cfg, before, run.head, k);
      TouchedInRange(cfg, Survivor(before, run.head.now, k), run.head.now);
    }
  }

  /** The bucket was refilled no later than `now`, and was fresh enough at the last collection. */
  ghost predicate Fresh(b: Option<Bucket>, lastGc: real, now: real) {
    b.Some? ==> b.value.lastRefill <= now && lastGc - b.value.lastRefill < BUCKET_TTL
  }

  lemma {:induction false} AgesStayBounded(cfg: Config, start: real, run: Run, k: string)
    requires Nondecreasing(run, start)
    ensures var st := After(cfg, State(map[], start), run);
            && 0.0 <= Latest(run, start) - st.lastGc < GC_INTERVAL
            && Fresh(Lookup(st.buckets, k), st.lastGc, Latest(run, start))
  {
    if run.Cons? {
      AgesStayBounded(cfg, start, run.tail, k);
      StepAt(cfg, After(cfg, State(map[], start), run.tail), run.head, k);
    }
  }

  /** After any check, every bucket still held was touched less than three minutes earlier. */
  lemma {:induction false} RetainedBucketsAreRecent(cfg: Config, start: real, run: Run, k: string)
    requires Nondecreasing(run, start)
    ensures var held := Lookup(After(cfg, State(map[], start), run).buckets, k);
            held.Some? ==> Latest(run, start) - held.value.lastRefill < 180.0
  {
    AgesStayBounded(cfg, start, run, k);
  }

  /** The commented rule after a check at `now`: no bucket untouched for a minute is held. */
  ghost predicate HoldsOnlyYoung(st: State, now: real) {
    forall k :: k in st.buckets ==> now - st.buckets[k].lastRefill < GC_INTERVAL
  }

  /** The collector of a check at `now` takes the bucket. */
  ghost predicate Taken(st: State, now: real, k: string)
    requires k in st.buckets
  {
    Due(st.lastGc, now) && now - st.buckets[k].lastRefill >= BUCKET_TTL
  }

  lemma {:induction false} HeldAfterStep(cfg: Config, st: State, c: Call, k: string)
    requires k != BucketKey(c.key)
    ensures k in Step(cfg, st, c).buckets <==> k in st.buckets && !Taken(st, c.now, k)
    ensures k in Step(cfg, st, c).buckets ==> Step(cfg, st, c).buckets[k] == st.buckets[k]
  {
    StepAt(cfg, st, c, k);
  }

  /**
   After a check no bucket untouched for a minute is held exactly when, of the other clients' buckets, every
   one that old before it was two minutes old and the collector was due.
   */
  lemma {:induction false} OnlyYoungHeldIff(cfg: Config, st: State, c: Call)
    ensures HoldsOnlyYoung(Step(cfg, st, c), c.now)
       <==> forall k :: k in st.buckets && k != BucketKey(c.key) && c.now - st.buckets[k].lastRefill >= GC_INTERVAL
                        ==> Taken(st, c.now, k)
  {
    var after := Step(cfg, st, c);
    StepAt(cfg, st, c, BucketKey(c.key));
    forall k | k != BucketKey(c.key)
      ensures k in after.buckets <==> k in st.buckets && !Taken(st, c.now, k)
      ensures k in after.buckets ==> after.buckets[k] == st.buckets[k]
    {
      HeldAfterStep(cfg, st, c, k);
    }
  }

  /** Every age from one minute to just under three is reached, so the bound of three minutes is the least. */
  lemma {:induction false} OldBucketsAreRetained(cfg: Config, a: real)
    requires 60.0 <= a < 180.0
    ensures var run := Cons(Call("b", 30.0 + a), Cons(Call("b", 30.0 + 2.0 * a / 3.0), Cons(Call("a", 30.0), Nil)));
            var held := Lookup(After(cfg, State(map[], 0.0), run).buckets, "a");
            Nondecreasing(run, 0.0) && held.Some? && Latest(run, 0.0) - held.value.lastRefill == a
  {
    var first: Run := Cons(Call("a", 30.0), Nil);
    var second: Run := Cons(Call("b", 30.0 + 2.0 * a / 3.0), first);
    var st := State(map[], 0.0);
    assert !IsInvalid("a") && !IsInvalid("b");
    StepAt(cfg, st, Call("a", 30.0), "a");
    assert After(cfg, st, first) == Step(cfg, st, Call("a", 30.0));
    StepAt(cfg, After(cfg, st, first), second.head, "a");
    StepAt(cfg, After(cfg, st, second), Call("b", 30.0 + a), "a");
  }

  // ----- How many requests a window admits -----

  /** The requests of client `k` admitted in the window. */
  ghost function Admitted(cfg: Config, st: State, window: Run, k: string): nat {
    if window.Nil? then 0
    else
      Admitted(cfg, st, window.tail, k)
      + if BucketKey(window.head.key) == k && Answer(cfg, After(cfg, st, window.tail), window.head) then 1 else 0
  }

  /** The collector takes no bucket of `k` in the window. */
  ghost predicate NeverEvicted(cfg: Config, st: State, window: Run, k: string) {
    window.Cons? ==>
      && NeverEvicted(cfg, st, window.tail, k)
      && var before := After(cfg, st, window.tail);
         Survivor(before, window.head.now, k) == Lookup(before.buckets, k)
  }

  lemma {:induction false} AvailableGrows(cfg: Config, b: Option<Bucket>, s: real, t: real)
    requires Steady(cfg) && s <= t
    requires b.Some? ==> b.value.lastRefill <= s
    ensures Available(cfg, b, t) <= Available(cfg, b, s) + cfg.earn(t - s)
  {
    assert cfg.earn(0.0) <= cfg.earn(t - s);
    if b.Some? {
      assert Sum(s - b.value.lastRefill, t - s) == t - b.value.lastRefill;
    }
  }

  lemma {:induction false} FullWhenStale(cfg: Config, b: Bucket, now: real)
    requires Steady(cfg) && cfg.burst <= cfg.earn(BUCKET_TTL)
    requires b.tokens >= 0.0 && now - b.lastRefill >= BUCKET_TTL
    ensures Refilled(cfg, b, now) == cfg.burst
  {
    assert cfg.earn(BUCKET_TTL) <= cfg.earn(now - b.lastRefill);
  }

  /** Evicting a bucket adds no tokens when two minutes refill it anyway. */
  lemma {:induction false} EvictionIsNeutral(cfg: Config, st: State, now: real, k: string)
    requires Steady(cfg) && cfg.burst <= cfg.earn(BUCKET_TTL) && InRange(cfg, Lookup(st.buckets, k))
    ensures Available(cfg, Survivor(st, now, k), now) == Available(cfg, Lookup(st.buckets, k), now)
  {
    if Survivor(st, now, k) != Lookup(st.buckets, k) {
      FullWhenStale(cfg, st.buckets[k], now);
    }
  }

  /** What a bucket earns between the calls of a window. */
  ghost function Accrued(cfg: Config, window: Run, s: real): real {
    if window.Nil? then 0.0
    else Accrued(cfg, window.tail, s) + cfg.earn(window.head.now - Latest(window.tail, s))
  }

  lemma {:induction false} AccruedInTotal(cfg: Config, window: Run, s: real)
    requires Steady(cfg)
    ensures Accrued(cfg, window, s) == cfg.earn(Latest(window, s) - s)
  {
    if window.Cons? {
      AccruedInTotal(cfg, window.tail, s);
      var r := Latest(window.tail, s);
      assert Sum(r - s, window.head.now - r) == window.head.now - s;
    }
  }

  /** Admitted requests are paid for by the tokens at the start and what was earned since. */
  ghost predicate Paid(cfg: Config, fast: Config, st: State, window: Run, k: string, s: real) {
    var held := Lookup(After(cfg, st, window).buckets, k);
    && s <= Latest(window, s) && (held.Some? ==> held.value.lastRefill <= Latest(window, s))
    && InRange(cfg, held)
    && Admitted(cfg, st, window, k) as real + Available(fast, held, Latest(window, s))
       <= Available(fast, Lookup(st.buckets, k), s) + Accrued(fast, window, s)
  }

  /** Waiting from `r` to `now` and being passed by the collector yields no more than was earned. */
  lemma {:induction false} WaitingIsPaid(cfg: Config, before: State, k: string, r: real, now: real)
    requires Steady(cfg) && cfg.burst >= 0.0 && r <= now
    requires InRange(cfg, Lookup(before.buckets, k))
    requires k in before.buckets ==> before.buckets[k].lastRefill <= r
    requires cfg.burst <= cfg.earn(BUCKET_TTL) || Survivor(before, now, k) == Lookup(before.buckets, k)
    ensures Available(cfg, Survivor(before, now, k), now)
              <= Available(cfg, Lookup(before.buckets, k), r) + cfg.earn(now - r)
  {
    AvailableGrows(cfg, Lookup(before.buckets, k), r, now);
    if Survivor(before, now, k) != Lookup(before.buckets, k) {
      EvictionIsNeutral(cfg, before, now, k);
    }
  }

  /** A refill of the same buckets that is nowhere slower. */
  ghost predicate Faster(cfg: Config, fast: Config) {
    && Steady(fast) && fast.burst == cfg.burst
    && forall d :: d >= 0.0 ==> cfg.earn(d) <= fast.earn(d)
  }

  lemma {:induction false} TouchingIsPaid(cfg: Config, fast: Config, b: Option<Bucket>, now: real)
    requires Steady(cfg) && cfg.burst >= 0.0 && Faster(cfg, fast) && InRange(cfg, b)
    ensures InRange(cfg, Some(Touched(cfg, b, now)))
    ensures Available(fast, Some(Touched(cfg, b, now)), now) + (if Admits(cfg, b, now) then 1.0 else 0.0)
         <= Available(fast, b, now)
  {
    TouchedInRange(cfg, b, now);
    assert fast.earn(0.0) == 0.0;
    assert b.Some? ==> cfg.earn(Elapsed(now, b.value.lastRefill)) <= fast.earn(Elapsed(now, b.value.lastRefill));
  }

  /** The tokens a faster refill would have on offer pay for every admission. */
  lemma {:induction false} Potential(cfg: Config, fast: Config, st: State, window: Run, k: string, s: real)
    requires Steady(cfg) && cfg.burst >= 0.0 && Faster(cfg, fast) && Nondecreasing(window, s)
    requires InRange(cfg, Lookup(st.buckets, k))
    requires k in st.buckets ==> st.buckets[k].lastRefill <= s
    requires cfg.burst <= fast.earn(BUCKET_TTL) || NeverEvicted(cfg, st, window, k)
    ensures Paid(cfg, fast, st, window, k, s)
  {
    if window.Cons? {
      Potential(cfg, fast, st, window.tail, k, s);
      var before, now := After(cfg, st, window.tail), window.head.now;
      var r, kept := Latest(window.tail, s), Survivor(before, now, k);
      var after := Lookup(After(cfg, st, window).buckets, k);
      var spent := Admitted(cfg, st, window, k) - Admitted(cfg, st, window.tail, k);
      assert InRange(cfg, after) && (after.Some? ==> after.value.lastRefill <= now)
          && Available(fast, after, now) + spent as real <= Available(fast, kept, now) by {
        StepAt(cfg, before, window.head, k);
        TouchingIsPaid(cfg, fast, kept, now);
      }
      assert Available(fast, kept, now) <= Available(fast, Lookup(before.buckets, k), r) + fast.earn(now - r) by {
        WaitingIsPaid(fast, before, k, r, now);
      }
    }
  }

  /**
   A client is admitted at most as often between s and t as the burst size plus the earnings of that
   time allow, as long as its bucket is not evicted in between. Reckoned with a refill fast enough to fill
   a bucket in two minutes, the bound holds regardless of evictions.
   */
  lemma {:induction false} WindowBound(cfg: Config, fast: Config, st: State, window: Run, k: string, s: real, t: real)
    requires Steady(cfg) && cfg.burst >= 0.0 && Faster(cfg, fast)
    requires Nondecreasing(window, s) && Latest(window, s) <= t
    requires InRange(cfg, Lookup(st.buckets, k))
    requires k in st.buckets ==> st.buckets[k].lastRefill <= s
    requires cfg.burst <= fast.earn(BUCKET_TTL) || NeverEvicted(cfg, st, window, k)
    ensures Admitted(cfg, st, window, k) as real <= cfg.burst + fast.earn(t - s)
  {
    Potential(cfg, fast, st, window, k, s);
    PaidBound(cfg, fast, st, window, k, s);
    AccruedInTotal(fast, window, s);
    assert fast.earn(Latest(window, s) - s) <= fast.earn(t - s);
  }

  lemma {:induction false} PaidBound(cfg: Config, fast: Config, st: State, window: Run, k: string, s: real)
    requires Steady(cfg) && cfg.burst >= 0.0 && Faster(cfg, fast) && InRange(cfg, Lookup(st.buckets, k))
    requires Paid(cfg, fast, st, window, k, s)
    ensures Admitted(cfg, st, window, k) as real <= cfg.burst + Accrued(fast, window, s)
  {
    TouchedInRange(fast, Lookup(After(cfg, st, window).buckets, k), Latest(window, s));
    TouchedInRange(fast, Lookup(st.buckets, k), s);
  }

  /** A limiter that has been running since `start`, seen by one client. */
  lemma {:induction false} RunningLimiter(cfg: Config, fast: Config, start: real, past: Run, window: Run, k: string,
          s: real, t: real)
    requires Steady(cfg) && cfg.burst >= 0.0 && Faster(cfg, fast)
    requires Nondecreasing(past, start) && Latest(past, start) <= s
    requires Nondecreasing(window, s) && Latest(window, s) <= t
    requires cfg.burst <= fast.earn(BUCKET_TTL) || NeverEvicted(cfg, After(cfg, State(map[], start), past), window, k)
    ensures Admitted(cfg, After(cfg, State(map[], start), past), window, k) as real <= cfg.burst + fast.earn(t - s)
  {
    TokensStayInRange(cfg, State(map[], start), past, k);
    AgesStayBounded(cfg, start, past, k);
    WindowBound(cfg, fast, After(cfg, State(map[], start), past), window, k, s, t);
  }

  lemma {:induction false} FasterEarnsMore(d: real, r: real, r': real)
    requires d >= 0.0 && r <= r'
    ensures d * r <= d * r'
  {
  }

  lemma {:induction false} RatesCompare(rps: real, rps': real, burst: real)
    requires 0.0 <= rps <= rps'
    ensures Faster(PerSecond(rps, burst), PerSecond(rps', burst))
  {
    PerSecondIsSteady(rps, burst);
    PerSecondIsSteady(rps', burst);
    forall d | d >= 0.0 ensures PerSecond(rps, burst).earn(d) <= PerSecond(rps', burst).earn(d) {
      FasterEarnsMore(d, rps, rps');
    }
  }

  /** What `PerSecond` earns between two times. */
  lemma {:induction false} EarnedBetween(rps: real, burst: real, d: real)
    requires rps >= 0.0
    ensures Steady(PerSecond(rps, burst)) && PerSecond(rps, burst).earn(d) == d * rps
  {
    PerSecondIsSteady(rps, burst);
  }

  /** The admissions of client `k` in a window, by a limiter with a past. */
  ghost function AdmittedAfter(rps: real, burst: real, start: real, past: Run, window: Run, k: string): nat {
    Admitted(PerSecond(rps, burst), After(PerSecond(rps, burst), State(map[], start), past), window, k)
  }

  /** The two window bounds with the earnings not yet written as a product. */
  lemma {:induction false} AdmittedWithin(rps: real, fast: Config, start: real, past: Run, window: Run, k: string,
          s: real, t: real)
    requires rps >= 0.0 && fast.burst >= 0.0 && Faster(PerSecond(rps, fast.burst), fast)
    requires Nondecreasing(past, start) && Latest(past, start) <= s
    requires Nondecreasing(window, s) && Latest(window, s) <= t
    requires || fast.burst <= fast.earn(BUCKET_TTL)
             || NeverEvicted(PerSecond(rps, fast.burst), After(PerSecond(rps, fast.burst), State(map[], start), past),
                 window, k)
    ensures AdmittedAfter(rps, fast.burst, start, past, window, k) as real <= fast.burst + fast.earn(t - s)
  {
    var cfg := PerSecond(rps, fast.burst);
    assert Steady(cfg) by {
      PerSecondIsSteady(rps, fast.burst);
    }
    RunningLimiter(cfg, fast, start, past, window, k, s, t);
  }

  /**
   Of any client's requests between s and t, at most burst + rate * (t - s) are admitted, for every rate that is
   not below the configured one and, unless the client's bucket is never evicted in between, refills a bucket in
   two minutes. So burst + rps * (t - s) bounds a client that is not evicted, and the larger of rps and burst / 120
   takes the place of rps in every run.
   */
  lemma {:induction false} RequestsPerWindow(rps: real, rate: real, burst: real, start: real, past: Run, window: Run,
          k: string, s: real, t: real)
    requires 0.0 <= rps <= rate && burst >= 0.0
    requires Nondecreasing(past, start) && Latest(past, start) <= s
    requires Nondecreasing(window, s) && Latest(window, s) <= t
    requires || burst <= 120.0 * rate
             || NeverEvicted(PerSecond(rps, burst), After(PerSecond(rps, burst), State(map[], start), past), window, k)
    ensures AdmittedAfter(rps, burst, start, past, window, k) as real <= burst + (t - s) * rate
  {
    var fast := PerSecond(rate, burst);
    var earned := fast.earn(t - s);
    assert fast.earn(BUCKET_TTL) == 120.0 * rate && earned == (t - s) * rate by {
      EarnedBetween(rate, burst, BUCKET_TTL);
      EarnedBetween(rate, burst, t - s);
    }
    assert AdmittedAfter(rps, burst, start, past, window, k) as real <= burst + earned by {
      RatesCompare(rps, rate, burst);
      AdmittedWithin(rps, fast, start, past, window, k, s, t);
    }
  }

  // ----- When the collector, and with it every other client, is invisible -----

  /** The times of client `k`'s own calls, the latest first. */
  ghost function TimesOf(run: Run, k: string): List<real> {
    if run.Nil? then Nil
    else if BucketKey(run.head.key) == k then Cons(run.head.now, TimesOf(run.tail, k))
    else TimesOf(run.tail, k)
  }

  /** The bucket of a client that has the limiter to itself and is never collected. */
  ghost function Alone(cfg: Config, times: List<real>): Option<Bucket> {
    if times.Nil? then None else Some(Touched(cfg, Alone(cfg, times.tail), times.head))
  }

  /** The call is answered as if its client had the limiter to itself and were never collected. */
  ghost predicate AnsweredAlone(cfg: Config, start: real, run: Run, c: Call) {
    Answer(cfg, After(cfg, State(map[], start), run), c)
    <==> Admits(cfg, Alone(cfg, TimesOf(run, BucketKey(c.key))), c.now)
  }

  /** No run, and no call after it, shows a difference. */
  ghost predicate Invisible(cfg: Config) {
    forall start: real, run: Run, c: Call {:trigger AnsweredAlone(cfg, start, run, c)} ::
      Nondecreasing(Cons(c, run), start) ==> AnsweredAlone(cfg, start, run, c)
  }

  /** The bucket held is the client's own, or it was evicted when it had long been full. */
  ghost predicate Agrees(held: Option<Bucket>, own: Option<Bucket>, now: real) {
    || held == own
    || (held.None? && own.Some? && now - own.value.lastRefill >= BUCKET_TTL)
  }

  lemma {:induction false} HeldAgreesWithOwn(cfg: Config, start: real, run: Run, k: string)
    requires cfg.burst >= 0.0 && Steady(cfg) && cfg.burst <= cfg.earn(BUCKET_TTL) && Nondecreasing(run, start)
    ensures var own := Alone(cfg, TimesOf(run, k));
            && InRange(cfg, own)
            && (own.Some? ==> own.value.lastRefill <= Latest(run, start))
            && Agrees(Lookup(After(cfg, State(map[], start), run).buckets, k), own, Latest(run, start))
  {
    if run.Cons? {
      HeldAgreesWithOwn(cfg, start, run.tail, k);
      var before, now := After(cfg, State(map[], start), run.tail), run.head.now;
      var own := Alone(cfg, TimesOf(run.tail, k));
      StepAt(cfg, before, run.head, k);
      TouchedInRange(cfg, own, now);
      SameAvailable(cfg, before, own, now, Latest(run.tail, start), k);
    }
  }

  lemma {:induction false} SameAvailable(cfg: Config, st: State, own: Option<Bucket>, now: real, before: real,
          k: string)
    requires cfg.burst >= 0.0 && Steady(cfg) && cfg.burst <= cfg.earn(BUCKET_TTL)
    requires InRange(cfg, own) && (own.Some? ==> own.value.lastRefill <= before) && before <= now
    requires Agrees(Lookup(st.buckets, k), own, before)
    ensures Agrees(Survivor(st, now, k), own, now)
    ensures Available(cfg, Survivor(st, now, k), now) == Available(cfg, own, now)
  {
    if Survivor(st, now, k) != own {
      FullWhenStale(cfg, own.value, now);
    }
  }

  /** With less than one token of burst nobody is ever admitted, collected or not. */
  lemma {:induction false} NobodyAdmitted(cfg: Config, b: Option<Bucket>, now: real)
    requires cfg.burst < 1.0
    ensures !Admits(cfg, b, now)
  {
  }

  lemma {:induction false} InvisibleIfRefilled(cfg: Config)
    requires Steady(cfg) && (cfg.burst < 1.0 || cfg.burst <= cfg.earn(BUCKET_TTL))
    ensures Invisible(cfg)
  {
    forall start: real, run: Run, c: Call | Nondecreasing(Cons(c, run), start)
      ensures AnsweredAlone(cfg, start, run, c)
    {
      var k := BucketKey(c.key);
      var st := After(cfg, State(map[], start), run);
      StepAt(cfg, st, c, k);
      if cfg.burst < 1.0 {
        NobodyAdmitted(cfg, Survivor(st, c.now, k), c.now);
        NobodyAdmitted(cfg, Alone(cfg, TimesOf(run, k)), c.now);
      } else {
        HeldAgreesWithOwn(cfg, start, run, k);
        SameAvailable(cfg, st, Alone(cfg, TimesOf(run, k)), c.now, Latest(run, start), k);
      }
    }
  }

  // ----- The condition is necessary -----

  const CLIENT := "a"

  /** After `run`, at time `t`, the client holds `a` tokens, and would hold `b` if never collected. */
  ghost predicate Levels(cfg: Config, run: Run, a: real, b: real, t: real) {
    && Nondecreasing(run, 0.0) && run.Cons? && run.head.now == t
    && Lookup(After(cfg, State(map[], 0.0), run).buckets, CLIENT) == Some(Bucket(a, t))
    && Alone(cfg, TimesOf(run, CLIENT)) == Some(Bucket(b, t))
    && 0.0 <= a <= cfg.burst && 0.0 <= b <= cfg.burst
  }

  function Spent(x: real): real {
    if x >= 1.0 then x - 1.0 else x
  }

  ghost function HeldAt(cfg: Config, run: Run, now: real): Option<Bucket> {
    Survivor(After(cfg, State(map[], 0.0), run), now, CLIENT)
  }

  /** One more call: an invisible collector has both sides answer alike, and both levels move on. */
  lemma {:induction false} NextCall(cfg: Config, run: Run, a: real, b: real, t: real, now: real)
    requires Steady(cfg) && cfg.burst >= 1.0 && Invisible(cfg) && Levels(cfg, run, a, b, t) && t <= now
    ensures var a' := Available(cfg, HeldAt(cfg, run, now), now);
            var b' := Available(cfg, Some(Bucket(b, t)), now);
            && (a' >= 1.0 <==> b' >= 1.0)
            && Levels(cfg, Cons(Call(CLIENT, now), run), Spent(a'), Spent(b'), now)
  {
    var c, st := Call(CLIENT, now), After(cfg, State(map[], 0.0), run);
    assert BucketKey(CLIENT) == CLIENT by {
      assert !IsWhitespace('a');
    }
    StepAt(cfg, st, c, CLIENT);
    assert Nondecreasing(Cons(c, run), 0.0);
    assert AnsweredAlone(cfg, 0.0, run, c);
    TouchedInRange(cfg, HeldAt(cfg, run, now), now);
    TouchedInRange(cfg, Some(Bucket(b, t)), now);
  }

  lemma {:induction false} HeldOnTheSpot(cfg: Config, run: Run, a: real, b: real, t: real)
    requires Steady(cfg) && Levels(cfg, run, a, b, t)
    ensures Available(cfg, HeldAt(cfg, run, t), t) == a && Available(cfg, Some(Bucket(b, t)), t) == b
  {
  }

  /** Spending both sides down below one token keeps their difference. */
  lemma {:induction false} Drain(cfg: Config, run: Run, a: real, b: real, t: real)
          returns (run': Run, a': real, b': real)
    requires Steady(cfg) && cfg.burst >= 1.0 && Invisible(cfg) && Levels(cfg, run, a, b, t)
    ensures Levels(cfg, run', a', b', t) && a' - b' == a - b && a' < 1.0 && b' < 1.0
    decreases a.Floor
  {
    HeldOnTheSpot(cfg, run, a, b, t);
    NextCall(cfg, run, a, b, t, t);
    if a < 1.0 {
      run', a', b' := run, a, b;
    } else {
      run', a', b' := Drain(cfg, Cons(Call(CLIENT, t), run), a - 1.0, b - 1.0, t);
    }
  }

  /** The side that is ahead reaches the next token first, so neither may be ahead. */
  lemma {:induction false} NotAhead(cfg: Config, run: Run, a: real, b: real, t: real)
    requires Steady(cfg) && Attains(cfg) && cfg.earn(BUCKET_TTL) > 0.0 && cfg.burst >= 1.0 && Invisible(cfg)
    requires Levels(cfg, run, a, b, t)
    ensures a <= b
  {
    var run', a', b' := Drain(cfg, run, a, b, t);
    assert IsEarned(cfg, 1.0 - a');
    var w :| w >= 0.0 && cfg.earn(w) == 1.0 - a';
    NextCall(cfg, run', a', b', t, t + w);
    assert Elapsed(t + w, t) == w;
  }

  /** Two minutes later the collector has restored the full burst. */
  lemma {:induction false} AfterEviction(cfg: Config, run: Run, a: real, b: real, t: real)
    requires Steady(cfg) && cfg.burst >= 1.0 && Invisible(cfg) && Levels(cfg, run, a, b, t)
    ensures var b' := Min(b + cfg.earn(BUCKET_TTL), cfg.burst);
            b' >= 1.0 && Levels(cfg, Cons(Call(CLIENT, t + BUCKET_TTL), run), cfg.burst - 1.0, b' - 1.0, t + BUCKET_TTL)
  {
    AgesStayBounded(cfg, 0.0, run, CLIENT);
    NextCall(cfg, run, a, b, t, t + BUCKET_TTL);
    assert Elapsed(t + BUCKET_TTL, t) == BUCKET_TTL;
  }

  lemma {:induction false} FirstCall(cfg: Config)
    requires Steady(cfg) && cfg.burst >= 1.0
    ensures Levels(cfg, Cons(Call(CLIENT, 0.0), Nil), cfg.burst - 1.0, cfg.burst - 1.0, 0.0)
  {
    assert BucketKey(CLIENT) == CLIENT by {
      assert !IsWhitespace('a');
    }
    StepAt(cfg, State(map[], 0.0), Call(CLIENT, 0.0), CLIENT);
  }

  /** From the start one can arrive at an empty bucket on the second side. */
  lemma {:induction false} ReachEmpty(cfg: Config) returns (run: Run, a: real, t: real)
    requires Steady(cfg) && Attains(cfg) && cfg.burst >= 1.0 && Invisible(cfg)
    ensures cfg.earn(BUCKET_TTL) > 0.0
    ensures Levels(cfg, run, a, 0.0, t)
  {
    FirstCall(cfg);
    var run0, a0, b0 := Drain(cfg, Cons(Call(CLIENT, 0.0), Nil), cfg.burst - 1.0, cfg.burst - 1.0, 0.0);
    AfterEviction(cfg, run0, a0, b0, 0.0);
    assert IsEarned(cfg, 1.0 - b0);
    t :| t >= 0.0 && cfg.earn(t) == 1.0 - b0;
    NextCall(cfg, run0, a0, b0, 0.0, t);
    assert Elapsed(t, 0.0) == t;
    run, a := Cons(Call(CLIENT, t), run0), Spent(Available(cfg, HeldAt(cfg, run0, t), t));
  }

  /** If bursts are possible and two minutes do not refill one, some run gives the collector away. */
  lemma {:induction false} InvisibleOnlyIfRefilled(cfg: Config)
    requires Steady(cfg) && Attains(cfg) && cfg.burst >= 1.0 && cfg.burst > cfg.earn(BUCKET_TTL)
    ensures !Invisible(cfg)
  {
    if Invisible(cfg) {
      var run, a, t := ReachEmpty(cfg);
      AfterEviction(cfg, run, a, 0.0, t);
      NotAhead(cfg, Cons(Call(CLIENT, t + BUCKET_TTL), run),
               cfg.burst - 1.0, cfg.earn(BUCKET_TTL) - 1.0, t + BUCKET_TTL);
    }
  }

  /**
   The collector, and with it all other clients' traffic, can never be noticed if and only if bursts
   are too small to admit anybody or two minutes of refill make up a full burst.
   */
  lemma {:induction false} InvisibleIffRefilled(rps: real, burst: real)
    requires rps >= 0.0
    ensures Invisible(PerSecond(rps, burst)) <==> burst < 1.0 || burst <= 120.0 * rps
  {
    PerSecondIsSteady(rps, burst);
    PerSecondAttains(rps, burst);
    if burst < 1.0 || burst <= 120.0 * rps {
      InvisibleIfRefilled(PerSecond(rps, burst));
    } else {
      InvisibleOnlyIfRefilled(PerSecond(rps, burst));
    }
  }
}
