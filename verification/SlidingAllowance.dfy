/**
 The rate limiter seen from a client (proxy/src/rate_limiter.rs): which calls share a bucket, and which of a
 client's calls are admitted, both told from the calls alone.
 */
module SlidingAllowance {
  import opened Prelude
  import opened RateLimiting

  // ----- Which calls share a bucket -----

  /** A key without any text, or with white space in it. */
  ghost predicate Malformed(key: string) {
    key == "" || !(forall c :: c in key ==> !IsWhitespace(c))
  }

  /** The calls count against one allowance: same key, or both malformed, where `invalid` passes for malformed. */
  ghost predicate Together(a: string, b: string) {
    a == b || ((Malformed(a) || a == "invalid") && (Malformed(b) || b == "invalid"))
  }

  lemma {:induction false} MalformedIsInvalid(key: string)
    ensures IsInvalid(key) <==> Malformed(key)
  {
    if i :| 0 <= i < |key| && IsWhitespace(key[i]) {
      assert key[i] in key;
    }
  }

  lemma {:induction false} TogetherIffOneBucket(a: string, b: string)
    ensures BucketKey(a) == BucketKey(b) <==> Together(a, b)
  {
    MalformedIsInvalid(a);
    MalformedIsInvalid(b);
  }

  /** A key that is not empty and has no white space is its own bucket key; all others go to `invalid`. */
  lemma {:induction false} WellFormedKeysAreTheirOwn(key: string)
    ensures Malformed(key) ==> BucketKey(key) == "invalid"
    ensures !Malformed(key) ==> BucketKey(key) == key
  {
    MalformedIsInvalid(key);
  }

  /** The times of the calls that count against `key`'s allowance, the latest first. */
  ghost function TimesWith(run: Run, key: string): List<real> {
    if run.Nil? then Nil
    else if Together(run.head.key, key) then Cons(run.head.now, TimesWith(run.tail, key))
    else TimesWith(run.tail, key)
  }

  /** The times of the calls under `key` itself. */
  ghost function TimesUnder(run: Run, key: string): List<real> {
    if run.Nil? then Nil
    else if run.head.key == key then Cons(run.head.now, TimesUnder(run.tail, key))
    else TimesUnder(run.tail, key)
  }

  lemma {:induction false} TimesTogether(run: Run, key: string)
    ensures TimesOf(run, BucketKey(key)) == TimesWith(run, key)
    ensures !Malformed(key) && key != "invalid" ==> TimesWith(run, key) == TimesUnder(run, key)
  {
    if run.Cons? {
      TimesTogether(run.tail, key);
      TogetherIffOneBucket(run.head.key, key);
    }
  }

  /** When the limiter last collected: at its start, or at a call a minute or more after the collection before. */
  ghost function CollectedAt(run: Run, start: real): real {
    if run.Nil? then start
    else
      var before := CollectedAt(run.tail, start);
      if run.head.now - before >= 60.0 then run.head.now else before
  }

  /**
   The times of the calls that count against `key`'s allowance at `now`, the latest first: all of them, but that a
   collection two minutes or more after the latest one forgets them.
   */
  ghost function TimesCounting(run: Run, start: real, key: string, now: real): List<real> {
    if run.Nil? then Nil
    else
      var before := TimesCounting(run.tail, start, key, run.head.now);
      var times := if Together(run.head.key, key) then Cons(run.head.now, before) else before;
      if now - CollectedAt(run, start) >= 60.0 && times.Cons? && now - times.head >= 120.0 then Nil else times
  }

  // ----- Which calls are admitted -----

  /**
   The limiter without buckets: a call is admitted exactly when every window that ends with it holds no more
   admitted calls, itself included, than the burst and the earnings of the window.
   */
  ghost predicate Granted(cfg: Config, times: List<real>, now: real)
    decreases times, 1
  {
    1.0 <= cfg.burst && Room(cfg, times, now, 1.0)
  }

  /** There is room for `n` more at `now` in the windows that start at the given calls. */
  ghost predicate Room(cfg: Config, times: List<real>, now: real, n: real)
    decreases times, 0
  {
    times.Cons? ==>
      var m := n + (if Granted(cfg, times.tail, times.head) then 1.0 else 0.0);
      m <= cfg.burst + cfg.earn(now - times.head) && Room(cfg, times.tail, now, m)
  }

  /** No call is later than `now`, nor than the call after it. */
  ghost predicate NoneLater(times: List<real>, now: real) {
    times.Cons? ==> times.head <= now && NoneLater(times.tail, times.head)
  }

  /** Room at a later instant is room for as much less as is earned in between. */
  lemma {:induction false} RoomLater(cfg: Config, times: List<real>, t: real, now: real, n: real)
    requires Steady(cfg) && t <= now
    ensures Room(cfg, times, now, n) <==> Room(cfg, times, t, n - cfg.earn(now - t))
  {
    if times.Cons? {
      var m := n + (if Granted(cfg, times.tail, times.head) then 1.0 else 0.0);
      assert Sum(t - times.head, now - t) == now - times.head;
      RoomLater(cfg, times.tail, t, now, m);
      assert m - cfg.earn(now - t) == (n - cfg.earn(now - t)) + (m - n);
    }
  }

  /** The bucket of a client alone holds `n` tokens exactly when there is room for `n` calls. */
  lemma {:induction false} TokensAreRoom(cfg: Config, times: List<real>, now: real, n: real)
    requires Steady(cfg) && NoneLater(times, now)
    ensures Available(cfg, Alone(cfg, times), now) >= n <==> n <= cfg.burst && Room(cfg, times, now, n)
    ensures Admits(cfg, Alone(cfg, times), now) <==> Granted(cfg, times, now)
    decreases times, 1
  {
    RoomInBucket(cfg, times, now, n);
    RoomInBucket(cfg, times, now, 1.0);
  }

  lemma {:induction false} RoomInBucket(cfg: Config, times: List<real>, now: real, n: real)
    requires Steady(cfg) && NoneLater(times, now)
    ensures Available(cfg, Alone(cfg, times), now) >= n <==> n <= cfg.burst && Room(cfg, times, now, n)
    decreases times, 0
  {
    if times.Cons? {
      var t, earned := times.head, cfg.earn(now - times.head);
      var admitted := if Granted(cfg, times.tail, t) then 1.0 else 0.0;
      TokensAreRoom(cfg, times.tail, t, n + admitted - earned);
      RoomLater(cfg, times.tail, t, now, n + admitted);
      assert cfg.earn(Elapsed(now, t)) == earned;
    }
  }

  lemma {:induction false} LaterStill(times: List<real>, t: real, now: real)
    requires NoneLater(times, t) && t <= now
    ensures NoneLater(times, now)
  {
  }

  lemma {:induction false} CountingTimesAreOrdered(run: Run, start: real, key: string, now: real)
    requires Nondecreasing(run, start) && Latest(run, start) <= now
    ensures NoneLater(TimesCounting(run, start, key, now), now)
  {
    if run.Cons? {
      CountingTimesAreOrdered(run.tail, start, key, run.head.now);
      LaterStill(TimesCounting(run.tail, start, key, run.head.now), run.head.now, now);
    }
  }

  lemma {:induction false} LastCollection(cfg: Config, start: real, run: Run)
    requires Nondecreasing(run, start)
    ensures After(cfg, State(map[], start), run).lastGc == CollectedAt(run, start) <= Latest(run, start)
  {
    if run.Cons? {
      LastCollection(cfg, start, run.tail);
      StepAt(cfg, After(cfg, State(map[], start), run.tail), run.head, "");
    }
  }

  /** The bucket a call finds is that of a client alone with the calls that count. */
  lemma {:induction false} BucketOfCountingCalls(cfg: Config, start: real, run: Run, key: string, now: real)
    requires Nondecreasing(run, start) && Latest(run, start) <= now
    ensures Survivor(After(cfg, State(map[], start), run), now, BucketKey(key))
         == Alone(cfg, TimesCounting(run, start, key, now))
  {
    LastCollection(cfg, start, run);
    if run.Cons? {
      var before := TimesCounting(run.tail, start, key, run.head.now);
      BucketOfCountingCalls(cfg, start, run.tail, key, run.head.now);
      StepAt(cfg, After(cfg, State(map[], start), run.tail), run.head, BucketKey(key));
      TogetherIffOneBucket(run.head.key, key);
      CountingTimesAreOrdered(run.tail, start, key, run.head.now);
    }
  }

  /**
   In every run, a call is admitted exactly when every window that ends with it holds no more admitted calls than the
   burst and what the window earns, among the calls that count: those under its own key that no collection has made
   the limiter forget. Calls under other keys matter only as the occasion of collections.
   */
  lemma {:induction false} AnswersExactly(rps: real, burst: real, start: real, run: Run, c: Call)
    requires rps >= 0.0 && Nondecreasing(Cons(c, run), start)
    ensures var cfg := PerSecond(rps, burst);
            Answer(cfg, After(cfg, State(map[], start), run), c)
            <==> Granted(cfg, TimesCounting(run, start, c.key, c.now), c.now)
  {
    var cfg := PerSecond(rps, burst);
    PerSecondIsSteady(rps, burst);
    StepAt(cfg, After(cfg, State(map[], start), run), c, BucketKey(c.key));
    BucketOfCountingCalls(cfg, start, run, c.key, c.now);
    CountingTimesAreOrdered(run, start, c.key, c.now);
    TokensAreRoom(cfg, TimesCounting(run, start, c.key, c.now), c.now, 1.0);
  }

  lemma {:induction false} TimesAreOrdered(run: Run, start: real, key: string, now: real)
    requires Nondecreasing(run, start) && Latest(run, start) <= now
    ensures NoneLater(TimesWith(run, key), now)
  {
    if run.Cons? {
      TimesAreOrdered(run.tail, start, key, run.head.now);
      LaterStill(TimesWith(run.tail, key), run.head.now, now);
    }
  }

  /** Two calls in a row, or the last one and `now`, are never two minutes apart. */
  ghost predicate NoLongGap(times: List<real>, now: real) {
    times.Cons? ==> now - times.head < 120.0 && NoLongGap(times.tail, times.head)
  }

  /** A client without long gaps is never collected, whatever the others do. */
  lemma {:induction false} KeptWithoutGaps(cfg: Config, start: real, run: Run, k: string, now: real)
    requires Nondecreasing(run, start) && Latest(run, start) <= now && NoLongGap(TimesOf(run, k), now)
    ensures Lookup(After(cfg, State(map[], start), run).buckets, k) == Alone(cfg, TimesOf(run, k))
    ensures Survivor(After(cfg, State(map[], start), run), now, k) == Alone(cfg, TimesOf(run, k))
  {
    if run.Cons? {
      KeptWithoutGaps(cfg, start, run.tail, k, run.head.now);
      StepAt(cfg, After(cfg, State(map[], start), run.tail), run.head, k);
    }
  }

  lemma {:induction false} AnsweredByOwnBucket(rps: real, burst: real, start: real, run: Run, c: Call)
    requires rps >= 0.0 && Nondecreasing(Cons(c, run), start)
    requires burst < 1.0 || burst <= 120.0 * rps || NoLongGap(TimesWith(run, c.key), c.now)
    ensures AnsweredAlone(PerSecond(rps, burst), start, run, c)
  {
    var cfg := PerSecond(rps, burst);
    if burst < 1.0 || burst <= 120.0 * rps {
      InvisibleIffRefilled(rps, burst);
    } else {
      TimesTogether(run, c.key);
      KeptWithoutGaps(cfg, start, run, BucketKey(c.key), c.now);
      StepAt(cfg, After(cfg, State(map[], start), run), c, BucketKey(c.key));
    }
  }

  /**
   The answer to a call follows from the calls of its own allowance as if there were no buckets, and calls under
   other keys change nothing: in every run if two minutes refill the burst or nobody is ever admitted, and
   otherwise as long as the client is never idle for two minutes.
   */
  lemma {:induction false} OwnCallsDecide(rps: real, burst: real, start: real, run: Run, c: Call)
    requires rps >= 0.0 && Nondecreasing(Cons(c, run), start)
    requires burst < 1.0 || burst <= 120.0 * rps || NoLongGap(TimesWith(run, c.key), c.now)
    ensures var cfg := PerSecond(rps, burst);
            Answer(cfg, After(cfg, State(map[], start), run), c) <==> Granted(cfg, TimesWith(run, c.key), c.now)
    ensures !Malformed(c.key) && c.key != "invalid" ==> TimesWith(run, c.key) == TimesUnder(run, c.key)
  {
    PerSecondIsSteady(rps, burst);
    AnsweredByOwnBucket(rps, burst, start, run, c);
    TimesTogether(run, c.key);
    TimesAreOrdered(run, start, c.key, c.now);
    TokensAreRoom(PerSecond(rps, burst), TimesWith(run, c.key), c.now, 1.0);
  }

  /** A client's first call is answered by the burst alone, however many clients came before it. */
  lemma {:induction false} FirstCallOfAClient(rps: real, burst: real, start: real, run: Run, c: Call)
    requires rps >= 0.0 && Nondecreasing(Cons(c, run), start)
    requires !Malformed(c.key) && c.key != "invalid" && TimesUnder(run, c.key).Nil?
    ensures var cfg := PerSecond(rps, burst);
            Answer(cfg, After(cfg, State(map[], start), run), c) <==> burst >= 1.0
  {
    TimesTogether(run, c.key);
    OwnCallsDecide(rps, burst, start, run, c);
  }

  /** An instant sampled before another call's, and used after it, earns nothing and collects nothing. */
  lemma {:induction false} EarlierInstantEarnsNothing(cfg: Config, st: State, c: Call)
    requires Steady(cfg) && c.now <= st.lastGc
    requires forall k :: k in st.buckets ==> c.now <= st.buckets[k].lastRefill && st.buckets[k].tokens <= cfg.burst
    ensures Collect(st, c.now) == st
    ensures BucketKey(c.key) in st.buckets ==>
              var tokens := st.buckets[BucketKey(c.key)].tokens;
              && (Answer(cfg, st, c) <==> tokens >= 1.0)
              && Step(cfg, st, c).lastGc == st.lastGc
              && Step(cfg, st, c).buckets
                 == st.buckets[BucketKey(c.key) := Bucket(if tokens >= 1.0 then tokens - 1.0 else tokens, c.now)]
  {
  }
}
