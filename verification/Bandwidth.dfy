/**
 The token bucket of cmd/hyperexport/bandwidth.go.

 Time is in integer nanoseconds and refills round down exactly.  Wait holds the mutex for
 one attempt (refill, then take or sleep) and releases it while sleeping, so with several
 callers the limiter sees an arbitrary interleaving of attempts at non-decreasing times.
 */
module Bandwidth {
  import opened Wrappers

  const SECOND := 1_000_000_000

  datatype Config = Config(maxBytesPerSecond: int, burstSize: int)

  datatype Bucket = Bucket(limit: int, bucket: int, size: int, lastRefill: int, transferred: int)

  datatype Verdict = Granted | MustSleep(ns: int)

  function Created(config: Option<Config>, now: int): Bucket {
    if config == None || config.value.maxBytesPerSecond <= 0 then Bucket(0, 0, 0, 0, 0)
    else
      var c := config.value;
      var burst := if c.burstSize <= 0 then c.maxBytesPerSecond * 2 else c.burstSize;
      Bucket(c.maxBytesPerSecond, burst, burst, now, 0)
  }

  function RefillAmount(b: Bucket, now: int): int { (now - b.lastRefill) * b.limit / SECOND }

  function Refilled(b: Bucket, now: int): Bucket {
    var r := RefillAmount(b, now);
    if r > 0 then b.(bucket := if b.bucket + r > b.size then b.size else b.bucket + r, lastRefill := now) else b
  }

  /** How long to sleep for `tokens` missing tokens, at most a second. */
  function WaitTime(tokens: int, limit: int): int
    requires limit > 0
  {
    var w := tokens * SECOND / limit;
    if w > SECOND then SECOND else w
  }

  /** One pass of the Wait loop under the mutex. */
  function Attempt(b: Bucket, now: int, n: int): (r: (Bucket, Verdict))
    requires b.limit > 0
    ensures r.0.limit == b.limit && r.0.size == b.size
  {
    var u := Refilled(b, now);
    if u.bucket >= n then (u.(bucket := u.bucket - n, transferred := u.transferred + n), Granted)
    else (u, MustSleep(WaitTime(n - u.bucket, u.limit)))
  }

  ghost predicate Valid(b: Bucket) { b.limit > 0 && 0 <= b.bucket <= b.size }

  /** One attempt of some caller: when, and for how many bytes. */
  datatype Call = Call(now: int, n: nat)

  predicate Monotone(from: int, calls: seq<Call>)
    decreases |calls|
  {
    calls == [] || (from <= calls[0].now && Monotone(calls[0].now, calls[1..]))
  }

  /** The attempts are in order and lie between two instants. */
  predicate Within(from: int, calls: seq<Call>, to: int)
    decreases |calls|
  {
    if calls == [] then from <= to else from <= calls[0].now && Within(calls[0].now, calls[1..], to)
  }

  function After(b: Bucket, calls: seq<Call>): (r: Bucket)
    requires b.limit > 0
    ensures r.limit == b.limit && r.size == b.size
    decreases |calls|
  {
    if calls == [] then b else After(Attempt(b, calls[0].now, calls[0].n).0, calls[1..])
  }

  /** Bytes granted over a sequence of attempts. */
  function GrantedBytes(b: Bucket, calls: seq<Call>): nat
    requires b.limit > 0
    decreases |calls|
  {
    if calls == [] then 0
    else
      var (u, v) := Attempt(b, calls[0].now, calls[0].n);
      (if v == Granted then calls[0].n else 0) + GrantedBytes(u, calls[1..])
  }

  /** An attempt keeps the bucket in bounds; a refill, if any, is stamped with the current time. */
  lemma AttemptValid(b: Bucket, c: Call)
    requires Valid(b) && b.lastRefill <= c.now
    ensures var u := Attempt(b, c.now, c.n).0;
      && Valid(u) && u.limit == b.limit && u.size == b.size && b.lastRefill <= u.lastRefill <= c.now
      && (u.lastRefill == b.lastRefill || u.lastRefill == c.now)
  {
  }

  /** What a failed and what a successful attempt mean for the caller. */
  lemma AttemptMeaning(b: Bucket, c: Call)
    requires Valid(b) && b.lastRefill <= c.now
    ensures var (u, v) := Attempt(b, c.now, c.n);
      if v == Granted then c.n <= b.size && u.transferred == b.transferred + c.n
      else
        && u.transferred == b.transferred && b.bucket <= u.bucket < c.n
        && (c.now - u.lastRefill) * u.limit < SECOND
        && v == MustSleep(WaitTime(c.n - u.bucket, u.limit))
        && WaitsFor(v.ns, c.n - u.bucket, u.limit)
  {
    RefillBound(b, c.now);
    var (u, v) := Attempt(b, c.now, c.n);
    if v != Granted {
      WaitMeans(c.n - u.bucket, u.limit);
    }
  }

  /**
   No byte is lost or made up: what an attempt leaves and grants is what was there and the
   whole bytes that flowed in since the last refill, up to the size of the bucket.
   */
  lemma AttemptConserves(b: Bucket, now: int, n: nat)
    requires Valid(b) && b.lastRefill <= now
    ensures var (u, v) := Attempt(b, now, n);
      var paid, due := if v == Granted then n else 0, (now - b.lastRefill) * b.limit;
      var gained := u.bucket + paid - b.bucket;
      && 0 <= gained && gained * 1_000_000_000 <= due
      && (u.bucket + paid == b.size || due < (gained + 1) * 1_000_000_000)
      && u.transferred == b.transferred + paid
  {
    RefillBound(b, now);
    hide WaitTime;
  }

  /** The smaller of a second and the whole nanoseconds in which so many tokens flow in. */
  predicate WaitsFor(ns: int, tokens: int, limit: int) {
    && 0 <= ns <= SECOND && ns * limit <= tokens * SECOND
    && (ns == SECOND || tokens * SECOND < (ns + 1) * limit)
  }

  lemma WaitMeans(tokens: int, limit: int)
    requires tokens >= 0 && limit > 0
    ensures WaitsFor(WaitTime(tokens, limit), tokens, limit)
  {
    var x, w := tokens * SECOND, WaitTime(tokens, limit);
    QuotientMeans(x, limit);
    ProductOrder(w, x / limit, limit);
  }

  lemma QuotientMeans(x: nat, d: int)
    requires d > 0
    ensures x / d >= 0 && (x / d) * d <= x < (x / d + 1) * d
  {
  }

  /**
   When an attempt for n bytes fails, the caller is told to sleep for a second, or less: for
   the whole nanoseconds in which the bytes missing now flow in.
   */
  lemma SleepMeans(b: Bucket, now: int, n: nat)
    requires Valid(b) && b.lastRefill <= now && Attempt(b, now, n).1 != Granted
    ensures var (u, v) := Attempt(b, now, n);
      && 0 <= v.ns <= 1_000_000_000 && v.ns * b.limit <= (n - u.bucket) * 1_000_000_000
      && (v.ns == 1_000_000_000 || (n - u.bucket) * 1_000_000_000 < (v.ns + 1) * b.limit)
  {
    AttemptMeaning(b, Call(now, n));
    hide Attempt;
  }

  /** In every interleaving the bucket stays between empty and full and the clock is respected. */
  lemma {:induction false} RunValid(b: Bucket, calls: seq<Call>, from: int)
    requires Valid(b) && b.lastRefill <= from && Monotone(from, calls)
    ensures Valid(After(b, calls))
    ensures After(b, calls).lastRefill <= if calls == [] then from else calls[|calls| - 1].now
    decreases |calls|
  {
    if calls != [] {
      AttemptValid(b, calls[0]);
      RunValid(Attempt(b, calls[0].now, calls[0].n).0, calls[1..], calls[0].now);
    }
  }

  lemma RefillBound(b: Bucket, now: int)
    requires b.limit > 0 && b.lastRefill <= now
    ensures RefillAmount(b, now) >= 0
    ensures RefillAmount(b, now) * SECOND <= (now - b.lastRefill) * b.limit < (RefillAmount(b, now) + 1) * SECOND
    ensures Inflow(b.limit, b.lastRefill, now) == (now - b.lastRefill) * b.limit
    ensures Inflow(b.limit, now, now) == 0
  {
  }

  /** Paying n bytes leaves at most what was there, plus what flowed in. */
  lemma AttemptBudget(b: Bucket, c: Call)
    requires Valid(b) && b.lastRefill <= c.now
    ensures var (u, v) := Attempt(b, c.now, c.n);
      ((if v == Granted then c.n else 0) + u.bucket) * SECOND
        <= b.bucket * SECOND + Inflow(b.limit, b.lastRefill, u.lastRefill)
  {
    RefillBound(b, c.now);
    InflowNone(b.limit, b.lastRefill);
    hide Inflow;
  }

  lemma InflowNone(limit: int, at: int)
    ensures Inflow(limit, at, at) == 0
  {
  }

  /** Token-nanoseconds that flow in between two instants at a constant limit. */
  function Inflow(limit: int, from: int, to: int): int { limit * (to - from) }

  lemma InflowAdds(limit: int, from: int, mid: int, to: int)
    ensures Inflow(limit, from, to) == Inflow(limit, from, mid) + Inflow(limit, mid, to)
  {
  }

  lemma InflowOrder(limit: int, from: int, mid: int, to: int)
    requires limit >= 0 && from <= mid <= to
    ensures 0 <= Inflow(limit, from, mid) <= Inflow(limit, from, to)
    ensures 0 <= Inflow(limit, mid, to) <= Inflow(limit, from, to)
  {
  }

  /** Everything granted up to time t was in the bucket or flowed in since its last refill. */
  lemma {:induction false} GrantedWithinInflow(b: Bucket, calls: seq<Call>, from: int, t: int)
    requires Valid(b) && b.lastRefill <= from <= t && Monotone(from, calls)
    requires forall i :: 0 <= i < |calls| ==> calls[i].now <= t
    ensures GrantedBytes(b, calls) * SECOND <= b.bucket * SECOND + Inflow(b.limit, b.lastRefill, t)
    decreases |calls|
  {
    hide Attempt, Inflow;
    if calls != [] {
      var u := Attempt(b, calls[0].now, calls[0].n).0;
      AttemptValid(b, calls[0]);
      AttemptBudget(b, calls[0]);
      GrantedWithinInflow(u, calls[1..], calls[0].now, t);
      InflowAdds(b.limit, b.lastRefill, u.lastRefill, t);
    } else {
      InflowOrder(b.limit, b.lastRefill, from, t);
    }
  }

  /** Nothing refilled at the first attempt: less than one byte flowed in before the window. */
  lemma WindowWithoutRefill(b: Bucket, calls: seq<Call>, s: int, t: int)
    requires Valid(b) && b.lastRefill <= s <= t && Monotone(s, calls) && calls != []
    requires forall i :: 0 <= i < |calls| ==> calls[i].now <= t
    requires RefillAmount(b, calls[0].now) == 0
    ensures GrantedBytes(b, calls) * SECOND <= (b.size + 1) * SECOND + Inflow(b.limit, s, t)
  {
    RefillBound(b, calls[0].now);
    hide Attempt, Inflow, RefillAmount;
    GrantedWithinInflow(b, calls, s, t);
    hide GrantedBytes;
    InflowAdds(b.limit, b.lastRefill, s, t);
    InflowOrder(b.limit, b.lastRefill, s, calls[0].now);
  }

  /** The first attempt refilled: from then on the bucket and its inflow pay for everything. */
  lemma WindowWithRefill(b: Bucket, calls: seq<Call>, s: int, t: int)
    requires Valid(b) && b.lastRefill <= s <= t && Monotone(s, calls) && calls != []
    requires forall i :: 0 <= i < |calls| ==> calls[i].now <= t
    requires RefillAmount(b, calls[0].now) > 0
    ensures GrantedBytes(b, calls) * SECOND <= (b.size + 1) * SECOND + Inflow(b.limit, s, t)
  {
    var c := calls[0];
    AttemptValid(b, c);
    AttemptAfterRefill(b, c);
    hide Attempt, RefillAmount, Inflow;
    GrantedWithinInflow(Attempt(b, c.now, c.n).0, calls[1..], c.now, t);
    InflowOrder(b.limit, s, c.now, t);
  }

  /**
   Rate bound.  Whatever the callers and their interleaving, the bytes granted in a window
   [s, t] are at most bucketSize + limit * (t - s) + 1.
   */
  lemma WindowBound(b: Bucket, calls: seq<Call>, s: int, t: int)
    requires Valid(b) && b.lastRefill <= s <= t && Monotone(s, calls)
    requires forall i :: 0 <= i < |calls| ==> calls[i].now <= t
    ensures GrantedBytes(b, calls) * SECOND <= (b.size + 1) * SECOND + b.limit * (t - s)
  {
    if calls != [] {
      RefillBound(b, calls[0].now);
      hide Attempt, RefillAmount;
      if RefillAmount(b, calls[0].now) == 0 {
        WindowWithoutRefill(b, calls, s, t);
      } else {
        WindowWithRefill(b, calls, s, t);
      }
    } else {
      InflowOrder(b.limit, s, s, t);
    }
    assert Inflow(b.limit, s, t) == b.limit * (t - s);
  }

  /** After a refill, payment and rest together fit the bucket. */
  lemma AttemptAfterRefill(b: Bucket, c: Call)
    requires Valid(b) && RefillAmount(b, c.now) > 0
    ensures var (u, v) := Attempt(b, c.now, c.n);
      u.lastRefill == c.now && (if v == Granted then c.n else 0) + u.bucket <= b.size
  {
  }

  /** The window may be any stretch of a longer run. */
  lemma RateBound(b: Bucket, before: seq<Call>, window: seq<Call>, start: int, s: int, t: int)
    requires Valid(b) && b.lastRefill <= start && Monotone(start, before)
    requires (if before == [] then start else before[|before| - 1].now) <= s <= t && Monotone(s, window)
    requires forall i :: 0 <= i < |window| ==> window[i].now <= t
    ensures GrantedBytes(After(b, before), window) * SECOND <= (b.size + 1) * SECOND + b.limit * (t - s)
  {
    RunValid(b, before, start);
    hide Attempt, GrantedBytes, Valid;
    WindowBound(After(b, before), window, s, t);
  }

  /** A request beyond the bucket size is refused at every point of every run. */
  lemma OversizedNeverGranted(b: Bucket, before: seq<Call>, start: int, c: Call)
    requires Valid(b) && b.lastRefill <= start && Monotone(start, before + [c]) && c.n > b.size
    ensures Attempt(After(b, before), c.now, c.n).1 != Granted
  {
    MonotonePrefix(start, before, c);
    RunValid(b, before, start);
  }

  lemma {:induction false} MonotonePrefix(from: int, calls: seq<Call>, c: Call)
    requires Monotone(from, calls + [c])
    ensures Monotone(from, calls) && (if calls == [] then from else calls[|calls| - 1].now) <= c.now
    decreases |calls|
  {
    if calls != [] {
      assert (calls + [c])[1..] == calls[1..] + [c];
      MonotonePrefix(calls[0].now, calls[1..], c);
    }
  }

  // ---------------------------------------------------------------- progress of a lone caller

  lemma ProductOrder(a: int, b: int, c: nat)
    requires a <= b
    ensures a * c <= b * c
  {
  }

  /** In q = floor(tokens * SECOND / limit) nanoseconds all but a fraction of the tokens flow in. */
  lemma WholeWait(tokens: int, limit: int, q: int)
    requires tokens >= 1 && 0 < limit < SECOND && q == tokens * SECOND / limit
    ensures q >= 1 && q * limit > SECOND - limit && q * limit >= limit
  {
    ProductOrder(1, tokens, SECOND);
    assert tokens * SECOND == q * limit + tokens * SECOND % limit;
  }

  /** One sleep, even with its truncated duration, lets in more than half a token. */
  lemma SleepGain(tokens: int, limit: int, slept: int)
    requires tokens >= 1 && limit > 0 && slept >= 1 && slept >= WaitTime(tokens, limit)
    ensures 2 * (slept * limit) > SECOND
  {
    if limit >= SECOND {
      ProductOrder(1, slept, limit);
    } else {
      var q := tokens * SECOND / limit;
      WholeWait(tokens, limit, q);
      ProductOrder(if q > SECOND then SECOND else q, slept, limit);
    }
  }

  /**
   Sleeps still needed at most: two for each missing token, one less once more than half a
   token has flowed in since the last refill.
   */
  function SleepsLeft(b: Bucket, now: int, n: int): (r: int)
    ensures 2 * (n - b.bucket) - 1 <= r <= 2 * (n - b.bucket)
  {
    2 * (n - b.bucket) - if 2 * ((now - b.lastRefill) * b.limit) > SECOND then 1 else 0
  }

  lemma SleepProgress(b: Bucket, now: int, n: int, slept: int)
    requires Valid(b) && b.lastRefill <= now && b.bucket < n <= b.size
    requires (now - b.lastRefill) * b.limit < SECOND
    requires slept >= 1 && slept >= WaitTime(n - b.bucket, b.limit)
    ensures var (u, v) := Attempt(b, now + slept, n);
      || v == Granted
      || (SleepsLeft(u, now + slept, n) < SleepsLeft(b, now, n) && (now + slept - u.lastRefill) * u.limit < SECOND)
  {
    SleepGain(n - b.bucket, b.limit, slept);
    RefillBound(b, now + slept);
    var e := now - b.lastRefill;
    assert (e + slept) * b.limit == e * b.limit + slept * b.limit;
    assert e * b.limit >= 0;
  }

  /**
   With a limit beyond one byte per nanosecond a wait can be truncated to nothing; if the
   clock then reads the same, the next attempt changes nothing.
   */
  lemma FrozenClockNoProgress(b: Bucket, now: int, n: int)
    requires Valid(b) && b.lastRefill <= now && Attempt(b, now, n).1 != Granted
    ensures var (u, v) := Attempt(b, now, n);
      && Attempt(u, now, n) == (u, v)
      && (v.ns == 0 <==> (n - u.bucket) * SECOND < b.limit)
  {
    var u := Attempt(b, now, n).0;
    RefillBound(b, now);
    QuotientZero((n - u.bucket) * SECOND, b.limit);
  }

  /** A limiter of this rate, whatever its burst and its callers so far, can ask a caller to sleep for nothing. */
  ghost predicate ZeroSleepPossible(limit: int)
    requires limit > 0
  {
    exists burst: int, start: int, calls: seq<Call>, c: Call ::
      && Monotone(start, calls + [c])
      && Attempt(After(Created(Some(Config(limit, burst)), start), calls), c.now, c.n).1 == MustSleep(0)
  }

  lemma ZeroSleepMeans(limit: int, burst: int, start: int, calls: seq<Call>, c: Call)
    requires limit > 0 && Monotone(start, calls + [c])
    requires Attempt(After(Created(Some(Config(limit, burst)), start), calls), c.now, c.n).1 == MustSleep(0)
    ensures limit > SECOND
  {
    var b := Created(Some(Config(limit, burst)), start);
    MonotonePrefix(start, calls, c);
    RunValid(b, calls, start);
    hide Created, After, Monotone;
    MissingToken(After(b, calls), c.now, c.n);
  }

  lemma MissingToken(b: Bucket, now: int, n: int)
    requires Valid(b) && b.lastRefill <= now && Attempt(b, now, n).1 == MustSleep(0)
    ensures b.limit > SECOND
  {
    var u := Attempt(b, now, n).0;
    FrozenClockNoProgress(b, now, n);
    assert n - u.bucket >= 1;
  }

  /** A bucket of one byte, just emptied. */
  lemma ZeroSleepReached(limit: int, now: int)
    requires limit > SECOND
    ensures var c := Call(now, 1);
      && Monotone(now, [c] + [c])
      && Attempt(After(Created(Some(Config(limit, 1)), now), [c]), now, 1).1 == MustSleep(0)
  {
    var c := Call(now, 1);
    var b, u := Created(Some(Config(limit, 1)), now), Bucket(limit, 0, 1, now, 1);
    assert RefillAmount(b, now) == 0 && RefillAmount(u, now) == 0;
    assert Attempt(b, now, 1).0 == u;
    assert [c][1..] == [] && After(u, []) == u && After(b, [c]) == u;
    QuotientZero(SECOND, limit);
    assert ([c] + [c])[1..] == [c];
  }

  /** That is so exactly when the limit exceeds a byte per nanosecond. */
  lemma ZeroSleepPossibleIff(limit: int)
    requires limit > 0
    ensures ZeroSleepPossible(limit) <==> limit > SECOND
  {
    if limit > SECOND {
      ZeroSleepReached(limit, 0);
    }
    if ZeroSleepPossible(limit) {
      var burst: int, start: int, calls: seq<Call>, c: Call :|
        && Monotone(start, calls + [c])
        && Attempt(After(Created(Some(Config(limit, burst)), start), calls), c.now, c.n).1 == MustSleep(0);
      ZeroSleepMeans(limit, burst, start, calls, c);
    }
  }

  lemma QuotientZero(x: nat, d: int)
    requires d > 0
    ensures x / d == 0 <==> x < d
  {
    var q := x / d;
    assert q >= 1 ==> q * d >= d;
  }

  // ---------------------------------------------------------------- progress among other callers

  /**
   What a waiting caller meets: sleep i takes the requested time plus late(i), and meanwhile the
   others make the attempts others(i, from, to).
   */
  datatype Setting = Setting(late: nat -> nat, others: (nat, int, int) -> seq<Call>)

  ghost predicate Orderly(env: Setting) {
    forall i, from, to :: from <= to ==> Within(from, env.others(i, from, to), to)
  }

  datatype Wakeup = Wakeup(bucket: Bucket, now: int, verdict: Verdict)

  /** Where a caller that wants n bytes stands after its first attempt and k sleeps. */
  function AfterSleeps(b: Bucket, start: int, n: int, env: Setting, k: nat): (w: Wakeup)
    requires b.limit > 0
    ensures w.bucket.limit == b.limit && w.bucket.size == b.size
    decreases k
  {
    if k == 0 then
      var (u, v) := Attempt(b, start, n);
      Wakeup(u, start, v)
    else
      var w := AfterSleeps(b, start, n, env, k - 1);
      if w.verdict == Granted then w
      else
        var to := w.now + w.verdict.ns + env.late(k - 1);
        var (u, v) := Attempt(After(w.bucket, env.others(k - 1, w.now, to)), to, n);
        Wakeup(u, to, v)
  }

  lemma NotGrantedYet(b: Bucket, start: int, n: int, env: Setting, k: nat, bound: nat)
    requires b.limit > 0
    ensures var w, x := AfterSleeps(b, start, n, env, k), AfterSleeps(b, start, n, env, bound);
      w.verdict != Granted && x.verdict == Granted ==> k < bound
  {
    hide AfterSleeps;
    if k >= bound && AfterSleeps(b, start, n, env, bound).verdict == Granted {
      GrantedStays(b, start, n, env, bound, k);
    }
  }

  lemma {:induction false} GrantedStays(b: Bucket, start: int, n: int, env: Setting, k: nat, m: nat)
    requires b.limit > 0 && k <= m && AfterSleeps(b, start, n, env, k).verdict == Granted
    ensures AfterSleeps(b, start, n, env, m) == AfterSleeps(b, start, n, env, k)
    decreases m
  {
    hide Attempt;
    if k < m {
      GrantedStays(b, start, n, env, k, m - 1);
    }
  }

  lemma WaitTimeNonNegative(tokens: int, limit: int)
    requires tokens >= 0 && limit > 0
    ensures WaitTime(tokens, limit) >= 0
  {
    var q := tokens * SECOND / limit;
    ProductOrder(0, tokens, SECOND);
    QuotientSign(tokens * SECOND, limit);
  }

  lemma QuotientSign(x: nat, d: int)
    requires d > 0
    ensures x / d >= 0
  {
  }

  /** What holds at each point where a caller for n bytes has tried. */
  ghost predicate Tried(w: Wakeup, n: nat) {
    var u := w.bucket;
    && Valid(u) && u.lastRefill <= w.now
    && (w.verdict != Granted ==>
          && u.bucket < n && (w.now - u.lastRefill) * u.limit < SECOND
          && w.verdict == MustSleep(WaitTime(n - u.bucket, u.limit)) && w.verdict.ns >= 0)
  }

  lemma FirstTry(b: Bucket, start: int, n: int, env: Setting)
    requires b.limit > 0
    ensures var (u, v) := Attempt(b, start, n); AfterSleeps(b, start, n, env, 0) == Wakeup(u, start, v)
  {
    hide Attempt;
  }

  lemma {:induction false} SleeperState(b: Bucket, start: int, n: nat, env: Setting, k: nat)
    requires Valid(b) && b.lastRefill <= start && Orderly(env)
    ensures Tried(AfterSleeps(b, start, n, env, k), n)
    decreases k
  {
    hide AfterSleeps, After, Attempt, Orderly;
    if k == 0 {
      hide Tried, Valid;
      FirstTry(b, start, n, env);
      AttemptState(b, start, n);
    } else {
      var w := AfterSleeps(b, start, n, env, k - 1);
      SleeperState(b, start, n, env, k - 1);
      hide WaitTime;
      if w.verdict == Granted {
        GrantedStays(b, start, n, env, k - 1, k);
      } else {
        var to := w.now + w.verdict.ns + env.late(k - 1);
        OthersState(w.bucket, w.now, env, k - 1, to);
        hide Tried, Valid;
        AttemptState(After(w.bucket, env.others(k - 1, w.now, to)), to, n);
        SleepOn(b, start, n, env, k);
      }
    }
  }

  lemma OthersWithin(env: Setting, i: nat, from: int, to: int)
    requires Orderly(env) && from <= to
    ensures Within(from, env.others(i, from, to), to)
  {
  }

  lemma OthersState(b: Bucket, from: int, env: Setting, i: nat, to: int)
    requires Valid(b) && b.lastRefill <= from <= to && Orderly(env)
    ensures Valid(After(b, env.others(i, from, to))) && After(b, env.others(i, from, to)).lastRefill <= to
  {
    var calls := env.others(i, from, to);
    assert Within(from, calls, to);
    WithinMonotone(from, calls, to);
    RunValid(b, calls, from);
  }

  lemma SleepOn(b: Bucket, start: int, n: nat, env: Setting, k: nat)
    requires b.limit > 0 && k > 0 && AfterSleeps(b, start, n, env, k - 1).verdict != Granted
    ensures var w := AfterSleeps(b, start, n, env, k - 1);
      var to := w.now + w.verdict.ns + env.late(k - 1);
      var (u, v) := Attempt(After(w.bucket, env.others(k - 1, w.now, to)), to, n);
      AfterSleeps(b, start, n, env, k) == Wakeup(u, to, v)
  {
    hide Attempt, After;
  }

  lemma AttemptState(b: Bucket, now: int, n: nat)
    requires Valid(b) && b.lastRefill <= now
    ensures var (u, v) := Attempt(b, now, n); Tried(Wakeup(u, now, v), n)
  {
    AttemptValid(b, Call(now, n));
    AttemptMeaning(b, Call(now, n));
    var (u, v) := Attempt(b, now, n);
    hide Attempt, WaitTime;
    if v != Granted {
      WaitTimeNonNegative(n - u.bucket, u.limit);
    }
  }

  /** From sleep q on nobody else calls, and none is empty: the rate is at most a byte per nanosecond, or it is late. */
  ghost predicate QuietFrom(env: Setting, limit: int, q: nat) {
    && (forall i, from, to :: i >= q ==> env.others(i, from, to) == [])
    && (limit <= SECOND || forall i :: i >= q ==> env.late(i) >= 1)
  }

  lemma WholeNanosecond(tokens: int, limit: int)
    requires tokens >= 1 && 0 < limit <= SECOND
    ensures WaitTime(tokens, limit) >= 1
  {
    ProductOrder(1, tokens, SECOND);
    if tokens * SECOND / limit < 1 {
      QuotientZero(tokens * SECOND, limit);
    }
  }

  /** One quiet sleep ends in the grant or leaves fewer to go. */
  lemma QuietSleep(b: Bucket, start: int, n: nat, env: Setting, q: nat, k: nat)
    requires Valid(b) && b.lastRefill <= start && Orderly(env) && n <= b.size && QuietFrom(env, b.limit, q) && k >= q
    ensures var w, x := AfterSleeps(b, start, n, env, k), AfterSleeps(b, start, n, env, k + 1);
      w.verdict == Granted || x.verdict == Granted ||
      SleepsLeft(x.bucket, x.now, n) < SleepsLeft(w.bucket, w.now, n)
  {
    hide Attempt, AfterSleeps, SleepsLeft, Orderly, WaitTime;
    var w := AfterSleeps(b, start, n, env, k);
    SleeperState(b, start, n, env, k);
    if w.verdict != Granted {
      SleepOn(b, start, n, env, k + 1);
      var slept := w.verdict.ns + env.late(k);
      assert env.others(k, w.now, w.now + slept) == [];
      QuietIsLong(n - w.bucket.bucket, env, b.limit, q, k);
      hide QuietFrom;
      SleepProgress(w.bucket, w.now, n, slept);
    }
  }

  lemma QuietIsLong(tokens: int, env: Setting, limit: int, q: nat, k: nat)
    requires tokens >= 1 && limit > 0 && QuietFrom(env, limit, q) && k >= q
    ensures WaitTime(tokens, limit) + env.late(k) >= 1
  {
    if limit <= SECOND {
      WholeNanosecond(tokens, limit);
    } else {
      WaitTimeNonNegative(tokens, limit);
    }
  }

  lemma SleepsLeftBound(b: Bucket, now: int, n: int)
    requires 0 <= b.bucket < n
    ensures 1 <= SleepsLeft(b, now, n) <= 2 * (n - b.bucket) <= 2 * n
  {
  }

  /** After j quiet sleeps without a grant at most `left - j` are still needed. */
  lemma {:induction false} QuietSleeps(b: Bucket, start: int, n: nat, env: Setting, q: nat, j: nat)
    requires Valid(b) && b.lastRefill <= start && Orderly(env) && n <= b.size && QuietFrom(env, b.limit, q)
    ensures var w, x := AfterSleeps(b, start, n, env, q), AfterSleeps(b, start, n, env, q + j);
      x.verdict != Granted ==>
        w.verdict != Granted && SleepsLeft(x.bucket, x.now, n) + j <= SleepsLeft(w.bucket, w.now, n)
    decreases j
  {
    hide AfterSleeps, SleepsLeft, Orderly, QuietFrom;
    if j > 0 {
      if AfterSleeps(b, start, n, env, q + j - 1).verdict == Granted {
        GrantedStays(b, start, n, env, q + j - 1, q + j);
      }
      QuietSleeps(b, start, n, env, q, j - 1);
      QuietSleep(b, start, n, env, q, q + j - 1);
    }
  }

  /**
   Once the others are quiet a request of at most the bucket size is granted within two sleeps
   per missing token: alone from the start, after 2 * (n - bucket) of them.
   */
  lemma LoneWaitGranted(b: Bucket, start: int, n: nat, env: Setting, q: nat)
    requires Valid(b) && b.lastRefill <= start && Orderly(env) && n <= b.size && QuietFrom(env, b.limit, q)
    ensures AfterSleeps(b, start, n, env, q + 2 * n).verdict == Granted
    ensures q == 0 && n > b.bucket ==> AfterSleeps(b, start, n, env, 2 * (n - b.bucket)).verdict == Granted
    ensures n <= b.bucket ==> AfterSleeps(b, start, n, env, 0).verdict == Granted
  {
    hide AfterSleeps, Attempt, SleepsLeft, Orderly, QuietFrom;
    FullEnough(b, start, n);
    FirstTry(b, start, n, env);
    LeftToWait(b, start, n, env, q, 2 * n);
    if q == 0 && n > b.bucket {
      LeftToWait(b, start, n, env, 0, 2 * (n - b.bucket));
      if AfterSleeps(b, start, n, env, 0).verdict == Granted {
        GrantedStays(b, start, n, env, 0, 2 * (n - b.bucket));
      }
    }
  }

  /** An attempt never takes from a bucket without a grant. */
  lemma FullEnough(b: Bucket, now: int, n: nat)
    requires Valid(b) && b.lastRefill <= now
    ensures n <= b.bucket ==> Attempt(b, now, n).1 == Granted
    ensures Attempt(b, now, n).1 != Granted ==> b.bucket <= Attempt(b, now, n).0.bucket
  {
    AttemptMeaning(b, Call(now, n));
  }

  lemma LeftToWait(b: Bucket, start: int, n: nat, env: Setting, q: nat, j: nat)
    requires Valid(b) && b.lastRefill <= start && Orderly(env) && n <= b.size && QuietFrom(env, b.limit, q)
    ensures var w := AfterSleeps(b, start, n, env, q);
      AfterSleeps(b, start, n, env, q + j).verdict != Granted ==>
        w.verdict != Granted && j < 2 * (n - w.bucket.bucket) <= 2 * n
  {
    var w, x := AfterSleeps(b, start, n, env, q), AfterSleeps(b, start, n, env, q + j);
    SleeperState(b, start, n, env, q);
    SleeperState(b, start, n, env, q + j);
    hide AfterSleeps, Orderly, QuietFrom, WaitTime;
    if x.verdict != Granted {
      QuietSleeps(b, start, n, env, q, j);
      SleepsLeftBound(w.bucket, w.now, n);
      SleepsLeftBound(x.bucket, x.now, n);
    }
  }

  // ---------------------------------------------------------------- how long a lone caller waits

  /** Nobody else calls, and every sleep ends on time. */
  ghost predicate Undisturbed(env: Setting) {
    (forall i, from, to :: env.others(i, from, to) == []) && (forall i :: env.late(i) == 0)
  }

  /**
   What flowed in since the start went into the bucket, except for less than that again, lost
   where a refill rounds down; the rest is due at the next refill.
   */
  predicate Accounted(first: int, start: int, u: Bucket, now: int) {
    Inflow(u.limit, start, now) <= 2 * (u.bucket - first) * SECOND + Inflow(u.limit, u.lastRefill, now)
  }

  lemma AccountedStep(first: int, start: int, b: Bucket, now: int, n: nat, slept: nat)
    requires Valid(b) && b.lastRefill <= now && b.bucket < n <= b.size && Accounted(first, start, b, now)
    requires Attempt(b, now + slept, n).1 != Granted
    ensures Accounted(first, start, Attempt(b, now + slept, n).0, now + slept)
  {
    var to := now + slept;
    RefillBound(b, to);
    InflowAdds(b.limit, start, now, to);
    InflowAdds(b.limit, b.lastRefill, now, to);
    InflowNone(b.limit, to);
    hide Inflow, WaitTime;
  }

  lemma {:induction false} AccountedAfter(b: Bucket, start: int, n: nat, env: Setting, k: nat)
    requires Valid(b) && b.lastRefill <= start && n <= b.size && Orderly(env) && Undisturbed(env)
    ensures var w := AfterSleeps(b, start, n, env, k);
      w.verdict != Granted ==> Accounted(b.bucket, start, w.bucket, w.now)
    decreases k
  {
    hide Attempt, AfterSleeps, Accounted, Orderly;
    if k == 0 {
      FirstTry(b, start, n, env);
      if Attempt(b, start, n).1 != Granted {
        AccountedFirst(b, start, n);
      }
    } else {
      var w := AfterSleeps(b, start, n, env, k - 1);
      if w.verdict == Granted {
        GrantedStays(b, start, n, env, k - 1, k);
      } else {
        AccountedAfter(b, start, n, env, k - 1);
        AloneStep(b, start, n, env, k - 1);
        if AfterSleeps(b, start, n, env, k).verdict != Granted {
          AccountedStep(b.bucket, start, w.bucket, w.now, n, w.verdict.ns);
        }
      }
    }
  }

  lemma AccountedFirst(b: Bucket, start: int, n: nat)
    requires Valid(b) && b.lastRefill <= start && Attempt(b, start, n).1 != Granted
    ensures Accounted(b.bucket, start, Attempt(b, start, n).0, start)
  {
    var u := Attempt(b, start, n).0;
    AttemptValid(b, Call(start, n));
    AttemptMeaning(b, Call(start, n));
    hide Attempt, WaitsFor, WaitTime;
    InflowNone(u.limit, start);
    InflowOrder(u.limit, u.lastRefill, start, start);
    hide Inflow;
  }

  /** Alone, one sleep is one attempt later. */
  lemma AloneStep(b: Bucket, start: int, n: nat, env: Setting, k: nat)
    requires Valid(b) && b.lastRefill <= start && n <= b.size && Orderly(env) && Undisturbed(env)
    ensures var w := AfterSleeps(b, start, n, env, k);
      w.verdict != Granted ==>
        && Valid(w.bucket) && w.bucket.lastRefill <= w.now && w.bucket.bucket < n <= w.bucket.size
        && w.bucket.size == b.size && w.bucket.limit == b.limit
        && WaitsFor(w.verdict.ns, n - w.bucket.bucket, b.limit)
        && var to := w.now + w.verdict.ns;
           var (u, v) := Attempt(w.bucket, to, n);
           AfterSleeps(b, start, n, env, k + 1) == Wakeup(u, to, v)
  {
    hide Attempt, AfterSleeps, Orderly, WaitsFor, WaitTime;
    var w := AfterSleeps(b, start, n, env, k);
    SleeperState(b, start, n, env, k);
    if w.verdict != Granted {
      WaitMeans(n - w.bucket.bucket, b.limit);
      SleepOn(b, start, n, env, k + 1);
      assert env.late(k) == 0 && env.others(k, w.now, w.now + w.verdict.ns) == [];
    }
  }

  /**
   A caller that is alone, with exact timers, has its n bytes before twice the time in which
   the missing ones flow in: rounding costs it less than that again.
   */
  lemma LoneWaitTime(b: Bucket, start: int, n: nat, env: Setting, k: nat)
    requires Valid(b) && b.lastRefill <= start && b.bucket < n <= b.size && Orderly(env) && Undisturbed(env)
    requires k > 0
    ensures var w, x := AfterSleeps(b, start, n, env, k - 1), AfterSleeps(b, start, n, env, k);
      w.verdict != Granted && x.verdict == Granted ==>
        b.limit * (x.now - start) < 2 * (n - b.bucket) * 1_000_000_000
  {
    hide Attempt, AfterSleeps, Orderly;
    var w := AfterSleeps(b, start, n, env, k - 1);
    if w.verdict == Granted {
      return;
    }
    AccountedAfter(b, start, n, env, k - 1);
    AloneStep(b, start, n, env, k - 1);
    SleeperState(b, start, n, env, k - 1);
    var to := w.now + w.verdict.ns;
    InflowAdds(b.limit, start, w.now, to);
    assert Inflow(b.limit, w.now, to) == w.verdict.ns * b.limit;
    assert Inflow(b.limit, w.bucket.lastRefill, w.now) == (w.now - w.bucket.lastRefill) * b.limit;
    assert Inflow(b.limit, start, to) == b.limit * (to - start);
    hide Inflow, Tried;
  }

  // ---------------------------------------------------------------- starvation

  /** Enough callers of one byte each, all at one instant. */
  function Takers(at: int, m: nat): seq<Call>
    decreases m
  {
    if m == 0 then [] else [Call(at, 1)] + Takers(at, m - 1)
  }

  /** Others that take, byte by byte, all there can be at the moment the caller wakes up. */
  function Greedy(size: nat, late: nat -> nat): Setting { Setting(late, (i, from, to) => Takers(to, size)) }

  lemma {:induction false} TakersWithin(from: int, to: int, m: nat)
    requires from <= to
    ensures Within(from, Takers(to, m), to)
    decreases m
  {
    if m > 0 {
      TakersWithin(to, to, m - 1);
      assert Takers(to, m)[1..] == Takers(to, m - 1);
    }
  }

  lemma GreedyOrderly(size: nat, late: nat -> nat)
    ensures Orderly(Greedy(size, late))
  {
    forall i, from, to | from <= to
      ensures Within(from, Greedy(size, late).others(i, from, to), to)
    {
      TakersWithin(from, to, size);
    }
  }

  /** Where no refill is due, each taker takes one byte while there is one. */
  lemma {:induction false} TakersTake(b: Bucket, at: int, m: nat)
    requires Valid(b) && b.lastRefill <= at && RefillAmount(b, at) == 0
    ensures var u := After(b, Takers(at, m));
      && Valid(u) && u.lastRefill <= at && RefillAmount(u, at) == 0
      && u.bucket == if b.bucket > m then b.bucket - m else 0
    decreases m
  {
    if m > 0 {
      var u := Attempt(b, at, 1).0;
      assert Takers(at, m)[1..] == Takers(at, m - 1);
      assert u.limit == b.limit && u.lastRefill == b.lastRefill;
      assert RefillAmount(u, at) == RefillAmount(b, at);
      hide RefillAmount, Attempt;
      TakersTake(u, at, m - 1);
    }
  }

  /** Once refilled, the bucket gets nothing more at this instant. */
  lemma RefilledOnce(b: Bucket, at: int, n: nat)
    requires Valid(b) && b.lastRefill <= at
    ensures var u := Attempt(b, at, n).0;
      && Valid(u) && u.lastRefill <= at && RefillAmount(u, at) == 0
      && (n == 1 ==> u.bucket < b.size || u.bucket == 0)
  {
    RefillBound(b, at);
    AttemptValid(b, Call(at, n));
    var u := Attempt(b, at, n).0;
    RefillBound(u, at);
  }

  /** As many takers as the bucket is large leave nothing for anyone at this instant. */
  lemma TakersEmpty(b: Bucket, at: int, n: nat)
    requires Valid(b) && b.lastRefill <= at && n > 0
    ensures var u := After(b, Takers(at, b.size));
      Valid(u) && u.lastRefill <= at && Attempt(u, at, n).1 != Granted
  {
    hide Attempt, RefillAmount, Takers, After;
    if b.size > 0 {
      RefilledOnce(b, at, 1);
      FirstTaker(b, at, b.size);
      TakersTake(Attempt(b, at, 1).0, at, b.size - 1);
    } else {
      NoTakers(b, at);
    }
    EmptyRefuses(After(b, Takers(at, b.size)), at, n);
  }

  lemma NoTakers(b: Bucket, at: int)
    requires b.limit > 0
    ensures After(b, Takers(at, 0)) == b
  {
  }

  lemma FirstTaker(b: Bucket, at: int, m: nat)
    requires b.limit > 0 && m > 0
    ensures After(b, Takers(at, m)) == After(Attempt(b, at, 1).0, Takers(at, m - 1))
  {
    hide Attempt;
    assert Takers(at, m)[1..] == Takers(at, m - 1);
  }

  lemma EmptyRefuses(u: Bucket, at: int, n: nat)
    requires Valid(u) && u.bucket == 0 && (RefillAmount(u, at) == 0 || u.size == 0) && n > 0
    ensures Attempt(u, at, n).1 != Granted
  {
  }

  lemma SleeperValid(b: Bucket, start: int, n: nat, env: Setting, k: nat)
    requires Valid(b) && b.lastRefill <= start && Orderly(env)
    ensures var w := AfterSleeps(b, start, n, env, k);
      && Valid(w.bucket) && w.bucket.lastRefill <= w.now && w.bucket.size == b.size
      && (w.verdict != Granted ==> w.verdict.ns >= 0)
  {
    SleeperState(b, start, n, env, k);
    hide AfterSleeps, Orderly, WaitTime;
  }

  ghost predicate IsGreedy(env: Setting, size: nat) {
    Orderly(env) && forall i, from, to :: env.others(i, from, to) == Takers(to, size)
  }

  lemma GreedyIsGreedy(size: nat, late: nat -> nat)
    ensures IsGreedy(Greedy(size, late), size)
  {
    GreedyOrderly(size, late);
  }

  lemma StarvedOnce(e: Bucket, start: int, n: nat, env: Setting, k: nat)
    requires Valid(e) && e.lastRefill <= start && n > 0 && IsGreedy(env, e.size)
    ensures AfterSleeps(e, start, n, env, k).verdict != Granted ==>
      AfterSleeps(e, start, n, env, k + 1).verdict != Granted
  {
    hide Attempt, Orderly, AfterSleeps, After, Takers;
    var w := AfterSleeps(e, start, n, env, k);
    if w.verdict != Granted {
      var to := w.now + w.verdict.ns + env.late(k);
      assert env.others(k, w.now, to) == Takers(to, e.size);
      SleeperValid(e, start, n, env, k);
      TakersEmpty(w.bucket, to, n);
      SleepOn(e, start, n, env, k + 1);
    }
  }

  lemma {:induction false} StarvedFrom(e: Bucket, start: int, n: nat, env: Setting, k: nat)
    requires Valid(e) && e.lastRefill <= start && n > 0 && IsGreedy(env, e.size)
    requires Attempt(e, start, n).1 != Granted
    ensures AfterSleeps(e, start, n, env, k).verdict != Granted
    decreases k
  {
    hide Attempt, AfterSleeps, IsGreedy;
    if k == 0 {
      FirstTry(e, start, n, env);
    } else {
      StarvedFrom(e, start, n, env, k - 1);
      StarvedOnce(e, start, n, env, k - 1);
    }
  }

  /**
   There is no fairness between callers: if others take each refill when the caller wakes up,
   then from an emptied bucket on it is not granted a single byte, after any number of sleeps.
   */
  lemma StarvedForever(b: Bucket, start: int, n: nat, late: nat -> nat, k: nat)
    requires Valid(b) && b.lastRefill <= start && n > 0
    ensures Orderly(Greedy(b.size, late))
    ensures AfterSleeps(After(b, Takers(start, b.size)), start, n, Greedy(b.size, late), k).verdict != Granted
  {
    GreedyIsGreedy(b.size, late);
    TakersEmpty(b, start, n);
    hide Attempt, Orderly, AfterSleeps, Greedy;
    StarvedFrom(After(b, Takers(start, b.size)), start, n, Greedy(b.size, late), k);
  }

  class BandwidthLimiter {
    var limit: int
    var bucket: int
    var bucketSize: int
    var lastRefill: int
    var bytesTransferred: int

    ghost function View(): Bucket
      reads this
    {
      Bucket(limit, bucket, bucketSize, lastRefill, bytesTransferred)
    }

    /** A missing or non-positive rate switches limiting off; the bucket starts full. */
    constructor (config: Option<Config>, now: int)
      ensures View() == Created(config, now)
      ensures if config == None || config.value.maxBytesPerSecond <= 0 then limit == 0
              else
                && limit == config.value.maxBytesPerSecond && bucket == bucketSize && lastRefill == now
                && bucketSize == (if config.value.burstSize <= 0 then 2 * limit else config.value.burstSize)
                && bytesTransferred == 0
      ensures limit == 0 || Valid(View())
    {
      limit, bucket, bucketSize, lastRefill, bytesTransferred := 0, 0, 0, 0, 0;
      if config.Some? && config.value.maxBytesPerSecond > 0 {
        var burst := config.value.burstSize;
        if burst <= 0 {
          burst := config.value.maxBytesPerSecond * 2;
        }
        limit, bucket, bucketSize, lastRefill := config.value.maxBytesPerSecond, burst, burst, now;
      }
    }

    /** The critical section of one Wait iteration. */
    method TryTake(now: int, n: int) returns (v: Verdict)
      requires limit > 0
      modifies this
      ensures (View(), v) == Attempt(old(View()), now, n)
    {
      var refillAmount := (now - lastRefill) * limit / SECOND;
      if refillAmount > 0 {
        bucket := bucket + refillAmount;
        if bucket > bucketSize {
          bucket := bucketSize;
        }
        lastRefill := now;
      }
      if bucket >= n {
        bucket := bucket - n;
        bytesTransferred := bytesTransferred + n;
        return Granted;
      }
      var waitTime := (n - bucket) * SECOND / limit;
      if waitTime > SECOND {
        waitTime := SECOND;
      }
      return MustSleep(waitTime);
    }

    /** Other callers make their attempts between two instants; got: the bytes they were granted. */
    method OthersRun(calls: seq<Call>, from: int, to: int) returns (ghost got: nat)
      requires Valid(View()) && lastRefill <= from && Within(from, calls, to)
      modifies this
      ensures View() == After(old(View()), calls) && Valid(View()) && lastRefill <= to
      ensures got == GrantedBytes(old(View()), calls) && bytesTransferred == old(bytesTransferred) + got
    {
      hide Attempt;
      got := 0;
      ghost var now := from;
      for i := 0 to |calls|
        invariant Valid(View()) && lastRefill <= now && Within(now, calls[i..], to)
        invariant After(old(View()), calls) == After(View(), calls[i..])
        invariant GrantedBytes(old(View()), calls) == got + GrantedBytes(View(), calls[i..])
        invariant bytesTransferred == old(bytesTransferred) + got
      {
        var c := calls[i];
        assert calls[i..][0] == c && calls[i..][1..] == calls[i + 1..];
        AttemptValid(View(), c);
        AttemptMeaning(View(), c);
        now := c.now;
        var v := TryTake(c.now, c.n);
        if v == Granted {
          got := got + c.n;
        }
      }
    }

    /**
     Wait among other callers.  All attempts together, `run`, are a sequence of calls as in the
     theorems above, and the caller returns after the first sleep that AfterSleeps says ends in
     a grant, or when its context is cancelled during sleep number cancelAt.  Without either
     it would never return, so one of them is demanded; LoneWaitGranted says when the first holds.
     */
    method Wait(start: int, n: nat, env: Setting, cancelAt: Option<nat>, ghost bound: nat)
      returns (err: bool, sleeps: nat, end: int, ghost run: seq<Call>, ghost got: nat)
      requires limit == 0 || (Valid(View()) && lastRefill <= start && Orderly(env))
      requires limit == 0 || cancelAt.Some? || AfterSleeps(View(), start, n, env, bound).verdict == Granted
      modifies this
      ensures old(limit) == 0 ==> !err && View() == old(View())
      ensures cancelAt == None ==> !err
      ensures old(limit) > 0 ==>
        var w := AfterSleeps(old(View()), start, n, env, sleeps);
        && View() == w.bucket && end == w.now && (err <==> w.verdict != Granted) && (err ==> cancelAt == Some(sleeps))
        && forall k :: 0 <= k < sleeps ==> AfterSleeps(old(View()), start, n, env, k).verdict != Granted
      ensures old(limit) > 0 ==> Valid(View()) && Monotone(start, run) && View() == After(old(View()), run)
      ensures old(limit) > 0 ==> bytesTransferred == old(bytesTransferred) + got + if err then 0 else n
      ensures old(limit) > 0 && n > bucketSize ==> err
    {
      hide Attempt, WaitTime, After, Within, Orderly, AfterSleeps;
      sleeps, end, run, got := 0, start, [], 0;
      if limit == 0 {
        return false, 0, start, [], 0;
      }
      ghost var b0 := View();
      NoCalls(b0, start);
      FirstTry(b0, start, n, env);
      var v;
      v, run, got := TryAfterOthers(b0, start, [], start, [], start, n);
      while v != Granted
        invariant Valid(View()) && limit == old(limit) && bucketSize == old(bucketSize) && lastRefill <= end
        invariant Within(start, run, end) && View() == After(b0, run)
        invariant bytesTransferred == old(bytesTransferred) + got + if v == Granted then n else 0
        invariant AfterSleeps(b0, start, n, env, sleeps) == Wakeup(View(), end, v)
        invariant forall k :: 0 <= k < sleeps ==> AfterSleeps(b0, start, n, env, k).verdict != Granted
        invariant v == Granted ==> n <= bucketSize
        invariant v != Granted ==> bucket < n && v == MustSleep(WaitTime(n - bucket, limit))
        invariant cancelAt.Some? && v != Granted ==> sleeps <= cancelAt.value
        decreases v != Granted, if cancelAt.Some? then cancelAt.value - sleeps else bound - sleeps
      {
        if cancelAt == Some(sleeps) {
          WithinMonotone(start, run, end);
          return true, sleeps, end, run, got;
        }
        if cancelAt == None {
          NotGrantedYet(b0, start, n, env, sleeps, bound);
        }
        WaitTimeNonNegative(n - bucket, limit);
        SleepOn(b0, start, n, env, sleeps + 1);
        var from := end;
        end := end + v.ns + env.late(sleeps);
        OthersWithin(env, sleeps, from, end);
        ghost var more;
        v, run, more := TryAfterOthers(b0, start, run, from, env.others(sleeps, from, end), end, n);
        got := got + more;
        sleeps := sleeps + 1;
      }
      WithinMonotone(start, run, end);
      err := false;
    }

    /** Other callers make their attempts while the caller sleeps, and then it tries for n. */
    method TryAfterOthers(ghost b0: Bucket, ghost start: int, ghost run0: seq<Call>, from: int, calls: seq<Call>,
                          to: int, n: nat)
      returns (v: Verdict, ghost run: seq<Call>, ghost got: nat)
      requires Valid(b0) && b0.lastRefill <= start && Within(start, run0, from) && View() == After(b0, run0)
      requires Valid(View()) && lastRefill <= from && Within(from, calls, to)
      modifies this
      ensures run == run0 + calls + [Call(to, n)] && Within(start, run, to) && View() == After(b0, run)
      ensures Valid(View()) && limit == old(limit) && bucketSize == old(bucketSize) && lastRefill <= to
      ensures bytesTransferred == old(bytesTransferred) + got + if v == Granted then n else 0
      ensures v == Granted ==> n <= bucketSize
      ensures v != Granted ==>
        bucket < n && (to - lastRefill) * limit < SECOND && v == MustSleep(WaitTime(n - bucket, limit))
      ensures (View(), v) == Attempt(After(old(View()), calls), to, n)
    {
      NoCalls(View(), from);
      hide Attempt, WaitTime, Within;
      got := OthersRun(calls, from, to);
      CallsJoin(b0, start, run0, from, calls, to);
      OwnAttempt(b0, start, run0 + calls, to, n);
      AttemptMeaning(View(), Call(to, n));
      AttemptValid(View(), Call(to, n));
      run := run0 + calls + [Call(to, n)];
      v := TryTake(to, n);
    }
  }

  lemma NoCalls(b: Bucket, at: int)
    requires b.limit > 0
    ensures After(b, []) == b && GrantedBytes(b, []) == 0 && Within(at, [], at)
  {
  }

  /** Attempts joined in time are one sequence of attempts. */
  lemma {:induction false} CallsJoin(b: Bucket, start: int, run: seq<Call>, mid: int, more: seq<Call>, end: int)
    requires b.limit > 0 && Within(start, run, mid) && Within(mid, more, end)
    ensures Within(start, run + more, end) && After(b, run + more) == After(After(b, run), more)
    decreases |run|
  {
    hide Attempt;
    if run == [] {
      assert run + more == more;
    } else {
      assert (run + more)[1..] == run[1..] + more;
      CallsJoin(Attempt(b, run[0].now, run[0].n).0, run[0].now, run[1..], mid, more, end);
    }
  }

  /** One more attempt, of the caller itself. */
  lemma OwnAttempt(b: Bucket, start: int, run: seq<Call>, end: int, n: nat)
    requires b.limit > 0 && Within(start, run, end)
    ensures Within(start, run + [Call(end, n)], end)
    ensures After(b, run + [Call(end, n)]) == Attempt(After(b, run), end, n).0
  {
    var c := Call(end, n);
    hide Attempt;
    assert [c][1..] == [];
    CallsJoin(b, start, run, end, [c], end);
  }

  /** What lies between two instants is in order. */
  lemma {:induction false} WithinMonotone(start: int, run: seq<Call>, end: int)
    requires Within(start, run, end)
    ensures Monotone(start, run) && start <= end && forall i :: 0 <= i < |run| ==> run[i].now <= end
    decreases |run|
  {
    if run != [] {
      WithinMonotone(run[0].now, run[1..], end);
      assert forall i :: 1 <= i < |run| ==> run[i] == run[1..][i - 1];
    }
  }
}
