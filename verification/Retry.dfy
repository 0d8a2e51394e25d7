/**
 The retry engine of retry/retry.go and its network-free twin cmd/hyperexport/retry.go.

 What a run meets (operation results, cancellation, network state, random jitter) is an
 environment indexed by attempt.  Delays are exact reals, truncated to nanoseconds.
 */
module Retry {
  import opened Wrappers

  // ---------------------------------------------------------------- errors and their classification

  /** A Go error: a leaf, an fmt.Errorf with %w, or a (Non)RetryableError marker.  id is its identity. */
  datatype Error =
    | Plain(id: int, msg: string)
    | Wrapped(id: int, prefix: string, inner: Error, suffix: string)
    | Marked(id: int, retryable: bool, inner: Error)

  function Message(e: Error): string {
    match e
    case Plain(_, msg) => msg
    case Wrapped(_, prefix, inner, suffix) => prefix + Message(inner) + suffix
    case Marked(_, _, inner) => Message(inner)
  }

  /** errors.Is: the target is somewhere on the chain of wrapped errors. */
  predicate Is(e: Error, target: Error) {
    e == target || (!e.Plain? && Is(e.inner, target))
  }

  const PATTERNS: seq<string> := [
    "connection refused", "connection reset", "connection timeout", "network unreachable", "no such host",
    "temporary failure", "timeout", "TLS handshake timeout", "i/o timeout", "broken pipe", "EOF",
    "500 Internal Server Error", "502 Bad Gateway", "503 Service Unavailable", "504 Gateway Timeout",
    "429 Too Many Requests", "RequestTimeout", "ServiceUnavailable", "InternalError", "SlowDown",
    "ThrottlingException", "RequestLimitExceeded", "ProvisionedThroughputExceededException",
    "TransactionInProgressException", "TooManyRequests"
  ]

  function LowerChar(c: char): char {
    if 'A' <= c <= 'Z' then (c as int + 32) as char else c
  }

  function Lower(s: string): (r: string)
    ensures |r| == |s|
  {
    seq(|s|, i requires 0 <= i < |s| => LowerChar(s[i]))
  }

  predicate OccursAt(s: string, p: string, i: nat) { i + |p| <= |s| && s[i..i + |p|] == p }

  ghost predicate Contains(s: string, p: string) { exists i: nat :: OccursAt(s, p, i) }

  ghost predicate Retryable(listed: seq<Error>, e: Error) {
    || (exists t :: t in listed && Is(e, t))
    || (exists p :: p in PATTERNS && Contains(Lower(Message(e)), Lower(p)))
  }

  method ToLower(s: string) returns (r: string)
    ensures r == Lower(s)
    ensures forall i :: 0 <= i < |s| ==> r[i] == if 'A' <= s[i] <= 'Z' then s[i] - 'A' + 'a' else s[i]
  {
    var result := new char[|s|];
    for i := 0 to |s|
      invariant forall j :: 0 <= j < i ==> result[j] == LowerChar(s[j])
    {
      var c := s[i];
      if c >= 'A' && c <= 'Z' {
        c := (c as int + ('a' as int - 'A' as int)) as char;
      }
      result[i] := c;
    }
    r := result[..];
  }

  /** The first position at which substr occurs, or -1 when it occurs nowhere. */
  method IndexString(s: string, substr: string) returns (r: int)
    ensures r >= -1
    ensures r >= 0 ==> OccursAt(s, substr, r) && forall i: nat :: i < r ==> !OccursAt(s, substr, i)
    ensures r == -1 <==> !Contains(s, substr)
  {
    var i := 0;
    while i <= |s| - |substr|
      invariant 0 <= i && (i <= |s| - |substr| + 1 || i == 0)
      invariant forall k: nat :: k < i ==> !OccursAt(s, substr, k)
    {
      var match_ := true;
      var j := 0;
      while j < |substr|
        invariant 0 <= j <= |substr|
        invariant match_ && s[i..i + j] == substr[..j]
      {
        if s[i + j] != substr[j] {
          match_ := false;
          break;
        }
        assert s[i..i + j + 1] == s[i..i + j] + [s[i + j]] && substr[..j + 1] == substr[..j] + [substr[j]];
        j := j + 1;
      }
      if match_ {
        assert OccursAt(s, substr, i);
        return i;
      }
      assert s[i..i + |substr|][j] != substr[j];
      i := i + 1;
    }
    return -1;
  }

  method ContainsString(s: string, substr: string) returns (b: bool)
    ensures b <==> Contains(Lower(s), Lower(substr))
  {
    var sLower := ToLower(s);
    var substrLower := ToLower(substr);
    if |sLower| < |substrLower| {
      return false;
    }
    var i := IndexString(sLower, substrLower);
    return i >= 0;
  }

  method IsRetryable(listed: seq<Error>, err: Option<Error>) returns (b: bool)
    ensures b <==> err.Some? && Retryable(listed, err.value)
  {
    if err == None {
      return false;
    }
    var e := err.value;
    hide Lower, Contains, Is, Message;
    for i := 0 to |listed|
      invariant forall t :: t in listed[..i] ==> !Is(e, t)
    {
      if Is(e, listed[i]) {
        return true;
      }
      assert listed[..i + 1] == listed[..i] + [listed[i]];
    }
    assert listed[..|listed|] == listed;
    var errMsg := Message(e);
    for i := 0 to |PATTERNS|
      invariant forall p :: p in PATTERNS[..i] ==> !Contains(Lower(errMsg), Lower(p))
    {
      var found := ContainsString(errMsg, PATTERNS[i]);
      if found {
        return true;
      }
      assert PATTERNS[..i + 1] == PATTERNS[..i] + [PATTERNS[i]];
    }
    assert PATTERNS[..|PATTERNS|] == PATTERNS;
    return false;
  }

  /** p occurs at i in s up to the case of ASCII letters. */
  ghost predicate OccursFolded(s: string, p: string, i: nat) {
    i + |p| <= |s| && forall j :: 0 <= j < |p| ==> LowerChar(s[i + j]) == LowerChar(p[j])
  }

  ghost predicate StandsIn(p: string, s: string) { exists i: nat :: OccursFolded(s, p, i) }

  /** Lower-casing both strings finds the pattern at exactly the places where it occurs up to case. */
  lemma LowerFolds(s: string, p: string, i: nat)
    ensures OccursAt(Lower(s), Lower(p), i) <==> OccursFolded(s, p, i)
  {
    if i + |p| <= |s| {
      var w := Lower(s)[i..i + |p|];
      if OccursFolded(s, p, i) {
        assert w == Lower(p);
      } else {
        var j :| 0 <= j < |p| && LowerChar(s[i + j]) != LowerChar(p[j]);
        assert w[j] != Lower(p)[j];
      }
    }
  }

  /**
   An error is retried exactly when a listed error is on its chain, or the text of some pattern
   occurs in its message up to the case of letters.
   */
  lemma RetryableMeans(listed: seq<Error>, e: Error)
    ensures Retryable(listed, e) <==>
      || (exists t :: t in listed && Is(e, t))
      || (exists p :: p in PATTERNS && StandsIn(p, Message(e)))
  {
    forall p
      ensures Contains(Lower(Message(e)), Lower(p)) <==> StandsIn(p, Message(e))
    {
      ContainsFolded(Message(e), p);
    }
    hide PATTERNS, Lower, StandsIn, Contains;
  }

  lemma ContainsFolded(s: string, p: string)
    ensures Contains(Lower(s), Lower(p)) <==> StandsIn(p, s)
  {
    hide Lower, OccursFolded, OccursAt;
    forall i: nat
      ensures OccursAt(Lower(s), Lower(p), i) <==> OccursFolded(s, p, i)
    {
      LowerFolds(s, p, i);
    }
  }

  /** An occurrence up to case stays one, shifted, when text is put around it. */
  lemma FoldedInside(prefix: string, s: string, suffix: string, p: string)
    requires Contains(Lower(s), Lower(p))
    ensures Contains(Lower(prefix + s + suffix), Lower(p))
  {
    var i: nat :| OccursAt(Lower(s), Lower(p), i);
    LowerFolds(s, p, i);
    LowerFolds(prefix + s + suffix, p, |prefix| + i);
  }

  lemma WrapOnce(listed: seq<Error>, id: int, prefix: string, e: Error, suffix: string)
    requires Retryable(listed, e)
    ensures Retryable(listed, Wrapped(id, prefix, e, suffix))
  {
    var w := Wrapped(id, prefix, e, suffix);
    if t :| t in listed && Is(e, t) {
      assert Is(w, t);
    } else {
      var p :| p in PATTERNS && Contains(Lower(Message(e)), Lower(p));
      FoldedInside(prefix, Message(e), suffix, p);
      assert Contains(Lower(Message(w)), Lower(p));
    }
  }

  /** The context decides too: a pattern in the text that wraps an error makes it retryable. */
  lemma ContextCounts(listed: seq<Error>, id: int, prefix: string, e: Error, suffix: string, p: string)
    requires p in PATTERNS && (Contains(Lower(prefix), Lower(p)) || Contains(Lower(suffix), Lower(p)))
    ensures Retryable(listed, Wrapped(id, prefix, e, suffix))
  {
    hide PATTERNS;
    var w := Wrapped(id, prefix, e, suffix);
    if Contains(Lower(prefix), Lower(p)) {
      FoldedInside("", prefix, Message(e) + suffix, p);
      assert "" + prefix + (Message(e) + suffix) == prefix + Message(e) + suffix;
    } else {
      FoldedInside(prefix + Message(e), suffix, "", p);
      assert prefix + Message(e) + suffix + "" == prefix + Message(e) + suffix;
    }
    assert Contains(Lower(Message(w)), Lower(p));
  }

  datatype Context = Context(id: int, prefix: string, suffix: string)

  function WrapAll(e: Error, contexts: seq<Context>): Error
    decreases |contexts|
  {
    if contexts == [] then e
    else WrapAll(Wrapped(contexts[0].id, contexts[0].prefix, e, contexts[0].suffix), contexts[1..])
  }

  /** A retryable error stays retryable under any context text wrapped around it, at any depth. */
  lemma {:induction false} WrappingKeepsRetryable(listed: seq<Error>, e: Error, contexts: seq<Context>)
    requires Retryable(listed, e)
    ensures Retryable(listed, WrapAll(e, contexts))
    decreases |contexts|
  {
    if contexts != [] {
      var c := contexts[0];
      WrapOnce(listed, c.id, c.prefix, e, c.suffix);
      WrappingKeepsRetryable(listed, Wrapped(c.id, c.prefix, e, c.suffix), contexts[1..]);
    }
  }

  /**
   The RetryableError and NonRetryableError markers decide nothing, contrary to their doc
   comments: a marked error is retryable exactly when the unmarked one is, unless the marker
   value itself is listed.
   */
  lemma MarkersDoNotDecide(listed: seq<Error>, id: int, mark: bool, e: Error)
    ensures Retryable(listed, Marked(id, mark, e)) <==> Retryable(listed, e) || Marked(id, mark, e) in listed
  {
    var m := Marked(id, mark, e);
    assert Message(m) == Message(e);
    assert forall t :: Is(m, t) <==> t == m || Is(e, t);
  }

  lemma PatternsNotEmpty(p: string)
    requires p in PATTERNS
    ensures p != ""
  {
    var i :| 0 <= i < |PATTERNS| && PATTERNS[i] == p;
  }

  /** Both markers fail: NonRetryableError on every transient message, RetryableError on an empty one. */
  lemma MarkersFail(id: int, mark: int, p: string)
    requires p in PATTERNS
    ensures Retryable([], Marked(mark, false, Plain(id, p)))
    ensures !Retryable([], Marked(mark, true, Plain(id, "")))
  {
    hide PATTERNS;
    var m, n := Marked(mark, false, Plain(id, p)), Marked(mark, true, Plain(id, ""));
    assert Message(m) == Message(m.inner) == p && Message(n) == Message(n.inner) == "";
    assert Lower(p)[0..|p|] == Lower(p);
    assert OccursAt(Lower(p), Lower(p), 0);
    assert Contains(Lower(Message(m)), Lower(p));
    forall q | q in PATTERNS
      ensures !Contains(Lower(""), Lower(q))
    {
      PatternsNotEmpty(q);
    }
  }

  // ---------------------------------------------------------------- backoff

  datatype RetryConfig = RetryConfig(maxAttempts: int, initialDelay: int, maxDelay: int, multiplier: real,
                                     jitter: bool, retryableErrors: seq<Error>, waitForNetwork: bool)

  const SECOND := 1_000_000_000

  predicate Normal(c: RetryConfig) {
    c.maxAttempts > 0 && c.initialDelay > 0 && c.maxDelay > 0 && c.multiplier > 0.0
  }

  function Power(x: real, n: nat): real { if n == 0 then 1.0 else x * Power(x, n - 1) }

  function Exponential(c: RetryConfig, n: nat): real { c.initialDelay as real * Power(c.multiplier, n) }

  function Jitter(d: real, random: real): real { d * 0.25 * random }

  /** The delay before jitter: exponential, capped at maxDelay. */
  function BaseDelay(c: RetryConfig, attempt: nat): real
    requires attempt >= 1
  {
    var d := Exponential(c, attempt - 1);
    if d > c.maxDelay as real then c.maxDelay as real else d
  }

  /** calculateDelay, with the random number it draws. */
  function Delay(c: RetryConfig, attempt: nat, random: real): int
    requires attempt >= 1
  {
    var d := BaseDelay(c, attempt);
    (if c.jitter then d + Jitter(d, random) else d).Floor
  }

  lemma {:induction false} PowerPositive(x: real, n: nat)
    requires x > 0.0
    ensures Power(x, n) > 0.0
  {
    if n > 0 {
      PowerPositive(x, n - 1);
    }
  }

  lemma ProductPositive(a: real, b: real)
    requires a > 0.0 && b > 0.0
    ensures a * b > 0.0
  {
  }

  lemma JitterBound(d: real, r: real)
    requires d > 0.0 && 0.0 <= r < 1.0
    ensures 0.0 <= Jitter(d, r) <= 0.25 * d
  {
    FractionOf(d, r);
    var x := d * r;
    assert Jitter(d, r) == 0.25 * x;
  }

  lemma JitterSum(d: real, r: real)
    ensures d + Jitter(d, r) == d * (1.0 + 0.25 * r)
  {
  }

  lemma FractionOf(q: real, r: real)
    requires q > 0.0 && 0.0 <= r < 1.0
    ensures 0.0 <= q * r <= q
  {
  }

  /** The capped exponential is positive and at most maxDelay. */
  lemma BaseDelayRange(c: RetryConfig, attempt: nat)
    requires Normal(c) && attempt >= 1
    ensures 0.0 < BaseDelay(c, attempt) <= c.maxDelay as real
  {
    PowerPositive(c.multiplier, attempt - 1);
    ProductPositive(c.initialDelay as real, Power(c.multiplier, attempt - 1));
  }

  /** Each delay lies between the capped exponential d (in whole nanoseconds) and 1.25 d. */
  lemma DelayBounds(c: RetryConfig, attempt: nat, random: real)
    requires Normal(c) && attempt >= 1 && 0.0 <= random < 1.0
    ensures var d := BaseDelay(c, attempt);
      && d.Floor <= Delay(c, attempt, random)
      && Delay(c, attempt, random) as real <= 1.25 * d
      && 0 <= 4 * Delay(c, attempt, random) <= 5 * c.maxDelay
      && (!c.jitter ==> Delay(c, attempt, random) == d.Floor)
      && (c.jitter ==> Delay(c, attempt, random) == (d * (1.0 + 0.25 * random)).Floor)
  {
    BaseDelayRange(c, attempt);
    JitterSum(BaseDelay(c, attempt), random);
    hide BaseDelay, Jitter;
    var d := BaseDelay(c, attempt);
    JitterBound(d, random);
    FloorBetween(d, if c.jitter then d + Jitter(d, random) else d, c.maxDelay);
  }

  lemma FloorBetween(d: real, x: real, m: int)
    requires 0.0 < d <= m as real && d <= x <= d + 0.25 * d
    ensures 0 <= d.Floor <= x.Floor && x.Floor as real <= 1.25 * d
    ensures 4 * x.Floor <= 5 * m
  {
    var n := x.Floor;
    assert n as real <= x && d + 0.25 * d == 1.25 * d;
    assert 4.0 * (n as real) <= 5.0 * (m as real);
    assert (4 * n) as real == 4.0 * (n as real) && (5 * m) as real == 5.0 * (m as real);
  }

  /** With a multiplier of at least one, a later attempt never waits less before jitter. */
  lemma {:induction false} BackoffMonotone(c: RetryConfig, a: nat, b: nat)
    requires Normal(c) && c.multiplier >= 1.0 && 1 <= a <= b
    ensures BaseDelay(c, a) <= BaseDelay(c, b)
    decreases b - a
  {
    if a < b {
      BackoffStep(c, a);
      BackoffMonotone(c, a + 1, b);
    }
  }

  /**
   The backoff starts at InitialDelay and is multiplied from attempt to attempt, and never
   exceeds MaxDelay.
   */
  lemma BackoffRecurrence(c: RetryConfig, a: nat)
    requires Normal(c) && 1 <= a
    ensures BaseDelay(c, 1) == if c.initialDelay < c.maxDelay then c.initialDelay as real else c.maxDelay as real
    ensures c.multiplier >= 1.0 || BaseDelay(c, a) < c.maxDelay as real ==>
      var next := c.multiplier * BaseDelay(c, a);
      BaseDelay(c, a + 1) == if next < c.maxDelay as real then next else c.maxDelay as real
  {
    var i, m, p := c.initialDelay as real, c.multiplier, Power(c.multiplier, a - 1);
    assert Power(m, 0) == 1.0 && i * 1.0 == i;
    assert Power(m, a) == m * p;
    TimesTwice(i, m, p);
    hide Power;
    if c.multiplier >= 1.0 && BaseDelay(c, a) == c.maxDelay as real {
      GrowsBy(c.maxDelay as real, m, Exponential(c, a - 1));
    }
  }

  lemma TimesTwice(i: real, m: real, p: real)
    ensures i * (m * p) == m * (i * p)
  {
  }

  lemma GrowsBy(x: real, m: real, y: real)
    requires m >= 1.0 && 0.0 < x <= y
    ensures m * x >= x && m * y >= x
  {
  }

  lemma BackoffStep(c: RetryConfig, a: nat)
    requires Normal(c) && c.multiplier >= 1.0 && 1 <= a
    ensures BaseDelay(c, a) <= BaseDelay(c, a + 1)
  {
    ExponentialGrows(c, a - 1);
    hide Exponential;
  }

  lemma ExponentialGrows(c: RetryConfig, n: nat)
    requires Normal(c) && c.multiplier >= 1.0
    ensures Exponential(c, n) <= Exponential(c, n + 1)
  {
    PowerPositive(c.multiplier, n);
    GrowBy(c.initialDelay as real, c.multiplier, Power(c.multiplier, n), Power(c.multiplier, n + 1));
  }

  lemma GrowBy(d: real, m: real, p: real, q: real)
    requires d > 0.0 && m >= 1.0 && p > 0.0 && q == m * p
    ensures d * p <= d * q
  {
    assert p <= q;
  }

  // ---------------------------------------------------------------- the attempt loop

  datatype OpResult = Ok(value: int) | Failed(err: Error)

  /** What attempt a meets: see the loop for when each is consulted. */
  datatype Env = Env(op: nat -> OpResult, doneAtTop: nat -> bool, doneInSleep: nat -> bool,
                     isUp: nat -> bool, networkWaitFails: nat -> bool, random: nat -> real)

  datatype Event = Call(attempt: nat) | Sleep(ns: int) | AwaitNetwork

  datatype Outcome =
    | Succeeded
    | Cancelled
    | NotRetryable(attempt: nat, err: Error)
    | Exhausted(err: Error)
    | NetworkWaitCancelled
    | FellThrough

  datatype Run = Run(trace: seq<Event>, outcome: Outcome)

  function Prepend(es: seq<Event>, r: Run): Run { Run(es + r.trace, r.outcome) }

  /** The trace specification all retry loops refine. */
  ghost function Script(c: RetryConfig, monitored: bool, env: Env, attempt: nat): Run
    requires attempt >= 1
    decreases c.maxAttempts - attempt
  {
    if attempt > c.maxAttempts then Run([], FellThrough)
    else if env.doneAtTop(attempt) then Run([], Cancelled)
    else match env.op(attempt)
      case Ok(_) => Run([Call(attempt)], Succeeded)
      case Failed(err) =>
        if !Retryable(c.retryableErrors, err) then Run([Call(attempt)], NotRetryable(attempt, err))
        else if attempt >= c.maxAttempts then Run([Call(attempt)], Exhausted(err))
        else if monitored && c.waitForNetwork && !env.isUp(attempt) then
          if env.networkWaitFails(attempt) then Run([Call(attempt), AwaitNetwork], NetworkWaitCancelled)
          else Prepend([Call(attempt), AwaitNetwork], Script(c, monitored, env, attempt + 1))
        else
          var pause := [Call(attempt), Sleep(Delay(c, attempt, env.random(attempt)))];
          if env.doneInSleep(attempt) then Run(pause, Cancelled)
          else Prepend(pause, Script(c, monitored, env, attempt + 1))
  }

  /** Attempt a ran the operation, failed retryably below the limit, and its pause was not cut short. */
  ghost predicate Continues(c: RetryConfig, monitored: bool, env: Env, a: nat) {
    && !env.doneAtTop(a)
    && env.op(a).Failed? && Retryable(c.retryableErrors, env.op(a).err)
    && a < c.maxAttempts
    && if monitored && c.waitForNetwork && !env.isUp(a) then !env.networkWaitFails(a) else !env.doneInSleep(a)
  }

  /** How the run ends when attempt k does not continue. */
  ghost function OutcomeAt(c: RetryConfig, monitored: bool, env: Env, k: nat): Outcome {
    if env.doneAtTop(k) then Cancelled
    else if env.op(k).Ok? then Succeeded
    else if !Retryable(c.retryableErrors, env.op(k).err) then NotRetryable(k, env.op(k).err)
    else if k >= c.maxAttempts then Exhausted(env.op(k).err)
    else if monitored && c.waitForNetwork && !env.isUp(k) then NetworkWaitCancelled
    else Cancelled
  }

  function Calls(trace: seq<Event>): seq<nat> {
    if trace == [] then []
    else if trace[0].Call? then [trace[0].attempt] + Calls(trace[1..])
    else Calls(trace[1..])
  }

  function Interval(from: nat, to: nat): seq<nat>
    decreases to - from
  {
    if from >= to then [] else [from] + Interval(from + 1, to)
  }

  lemma CallsPair(a: nat, pause: Event, rest: seq<Event>)
    requires !pause.Call?
    ensures Calls([Call(a), pause] + rest) == [a] + Calls(rest)
    ensures Calls([Call(a), pause]) == [a]
  {
    var t := [Call(a), pause] + rest;
    assert t[1..] == [pause] + rest && t[1..][1..] == rest;
    assert [Call(a), pause][1..] == [pause] && [pause][1..] == [];
  }

  lemma ScriptContinues(c: RetryConfig, monitored: bool, env: Env, a: nat)
    requires 1 <= a && Continues(c, monitored, env, a)
    ensures var r, rest := Script(c, monitored, env, a), Script(c, monitored, env, a + 1);
      r.outcome == rest.outcome && Calls(r.trace) == [a] + Calls(rest.trace)
  {
    hide Retryable, Delay, Power;
    var rest := Script(c, monitored, env, a + 1);
    CallsPair(a, AwaitNetwork, rest.trace);
    CallsPair(a, Sleep(Delay(c, a, env.random(a))), rest.trace);
  }

  lemma ScriptStops(c: RetryConfig, monitored: bool, env: Env, a: nat)
    requires 1 <= a <= c.maxAttempts && !Continues(c, monitored, env, a)
    ensures var r := Script(c, monitored, env, a);
      && r.outcome == OutcomeAt(c, monitored, env, a)
      && Calls(r.trace) == if env.doneAtTop(a) then [] else [a]
  {
    hide Retryable, Delay, Power;
    CallsPair(a, AwaitNetwork, []);
    CallsPair(a, Sleep(Delay(c, a, env.random(a))), []);
    assert [Call(a)][1..] == [];
  }

  lemma {:induction false} ScriptFrom(c: RetryConfig, monitored: bool, env: Env, a: nat) returns (k: nat)
    requires 1 <= a <= c.maxAttempts
    ensures a <= k <= c.maxAttempts && !Continues(c, monitored, env, k)
    ensures forall i :: a <= i < k ==> Continues(c, monitored, env, i)
    ensures var r := Script(c, monitored, env, a);
      && r.outcome == OutcomeAt(c, monitored, env, k)
      && Calls(r.trace) == Interval(a, if env.doneAtTop(k) then k else k + 1)
    decreases c.maxAttempts - a
  {
    hide Script, OutcomeAt, Calls;
    k := a;
    assert Interval(a, a) == [] && Interval(a, a + 1) == [a];
    if Continues(c, monitored, env, a) {
      k := ScriptFrom(c, monitored, env, a + 1);
      ScriptContinues(c, monitored, env, a);
    } else {
      ScriptStops(c, monitored, env, a);
    }
  }

  /**
   Every run calls the operation with 1, 2, .., k and stops at the first attempt k that does
   not continue: at the first success, non-retryable error, cancellation (before the call:
   then attempt k is not made) or at MaxAttempts; and the outcome says which it was.
   */
  lemma RunStopsAtFirst(c: RetryConfig, monitored: bool, env: Env) returns (k: nat)
    requires c.maxAttempts >= 1
    ensures 1 <= k <= c.maxAttempts && !Continues(c, monitored, env, k)
    ensures forall i :: 1 <= i < k ==> Continues(c, monitored, env, i)
    ensures var r := Script(c, monitored, env, 1);
      && r.outcome == OutcomeAt(c, monitored, env, k)
      && Calls(r.trace) == Interval(1, if env.doneAtTop(k) then k else k + 1)
  {
    k := ScriptFrom(c, monitored, env, 1);
  }

  /** The return behind the loop is reached exactly when there is no attempt to make. */
  lemma TrailingReturnUnreachable(c: RetryConfig, monitored: bool, env: Env)
    ensures Script(c, monitored, env, 1).outcome == FellThrough <==> c.maxAttempts <= 0
  {
    if c.maxAttempts >= 1 {
      var k := RunStopsAtFirst(c, monitored, env);
    }
  }

  /** A monitor that is not asked for, or always reports up, changes nothing. */
  lemma {:induction false} MonitorIrrelevant(c: RetryConfig, env: Env, a: nat)
    requires a >= 1
    requires !c.waitForNetwork || forall i :: a <= i < c.maxAttempts ==> env.isUp(i)
    ensures Script(c, true, env, a) == Script(c, false, env, a)
    decreases c.maxAttempts - a
  {
    hide Retryable, Delay;
    if a < c.maxAttempts {
      MonitorIrrelevant(c, env, a + 1);
    }
  }

  /** The pause behind a failed call: the network is awaited when it is down, else the backoff is slept. */
  ghost predicate IsPause(c: RetryConfig, monitored: bool, env: Env, a: nat, e: Event)
    requires a >= 1
  {
    if monitored && c.waitForNetwork && !env.isUp(a) then e == AwaitNetwork
    else e == Sleep(Delay(c, a, env.random(a)))
  }

  /** Attempt a failed, may be repeated, and its pause, of which the trace has the event e, was not cut short. */
  ghost predicate GoesOn(c: RetryConfig, monitored: bool, env: Env, a: nat, call: Event, pause: Event)
    requires a >= 1
  {
    && !env.doneAtTop(a) && call == Call(a) && IsPause(c, monitored, env, a, pause)
    && env.op(a).Failed? && Retryable(c.retryableErrors, env.op(a).err) && a < c.maxAttempts
    && if pause == AwaitNetwork then !env.networkWaitFails(a) else !env.doneInSleep(a)
  }

  /** How the run ends in attempt k: `last` is what the trace holds of it. */
  ghost predicate EndsIn(c: RetryConfig, monitored: bool, env: Env, k: nat, last: seq<Event>, o: Outcome)
    requires k >= 1
  {
    if env.doneAtTop(k) then last == [] && o == Cancelled
    else if env.op(k).Ok? then last == [Call(k)] && o == Succeeded
    else if !Retryable(c.retryableErrors, env.op(k).err) then last == [Call(k)] && o == NotRetryable(k, env.op(k).err)
    else if k == c.maxAttempts then last == [Call(k)] && o == Exhausted(env.op(k).err)
    else
      && |last| == 2 && last[0] == Call(k) && IsPause(c, monitored, env, k, last[1])
      && if last[1] == AwaitNetwork then env.networkWaitFails(k) && o == NetworkWaitCancelled
         else env.doneInSleep(k) && o == Cancelled
  }

  lemma TraceContinues(c: RetryConfig, monitored: bool, env: Env, a: nat) returns (pause: Event)
    requires 1 <= a && Continues(c, monitored, env, a)
    ensures var r, rest := Script(c, monitored, env, a), Script(c, monitored, env, a + 1);
      r == Prepend([Call(a), pause], rest) && GoesOn(c, monitored, env, a, Call(a), pause)
  {
    hide Retryable, Delay;
    pause := if monitored && c.waitForNetwork && !env.isUp(a) then AwaitNetwork
             else Sleep(Delay(c, a, env.random(a)));
  }

  lemma TraceStops(c: RetryConfig, monitored: bool, env: Env, a: nat)
    requires 1 <= a <= c.maxAttempts && !Continues(c, monitored, env, a)
    ensures var r := Script(c, monitored, env, a); EndsIn(c, monitored, env, a, r.trace, r.outcome)
  {
    hide Retryable, Delay;
  }

  /** In a trace that begins with attempt `from`, attempt i went on. */
  ghost predicate Went(c: RetryConfig, monitored: bool, env: Env, trace: seq<Event>, from: nat, i: nat)
    requires from >= 1
  {
    && from <= i && 2 * (i - from) + 1 < |trace|
    && GoesOn(c, monitored, env, i, trace[2 * (i - from)], trace[2 * (i - from) + 1])
  }

  lemma WentBehind(c: RetryConfig, monitored: bool, env: Env, a: nat, pause: Event, rest: seq<Event>, i: nat)
    requires a >= 1 && Went(c, monitored, env, rest, a + 1, i)
    ensures Went(c, monitored, env, [Call(a), pause] + rest, a, i)
  {
    hide GoesOn;
    var j := 2 * (i - (a + 1));
    var t := [Call(a), pause] + rest;
    assert 2 * (i - a) == j + 2 && t[j + 2] == rest[j] && t[j + 3] == rest[j + 1];
  }

  /** From attempt a on: two events for each attempt that goes on, and then the end. */
  lemma {:induction false} TraceFrom(c: RetryConfig, monitored: bool, env: Env, a: nat) returns (k: nat)
    requires 1 <= a <= c.maxAttempts
    ensures a <= k <= c.maxAttempts && 2 * (k - a) <= |Script(c, monitored, env, a).trace|
    ensures forall i :: a <= i < k ==> Went(c, monitored, env, Script(c, monitored, env, a).trace, a, i)
    ensures var r := Script(c, monitored, env, a); EndsIn(c, monitored, env, k, r.trace[2 * (k - a)..], r.outcome)
    decreases c.maxAttempts - a
  {
    hide Script, GoesOn, EndsIn;
    if Continues(c, monitored, env, a) {
      var pause := TraceContinues(c, monitored, env, a);
      var r, rest := Script(c, monitored, env, a), Script(c, monitored, env, a + 1);
      AttemptsLeft(c, monitored, env, a);
      k := TraceFrom(c, monitored, env, a + 1);
      assert r.trace == [Call(a), pause] + rest.trace;
      assert Went(c, monitored, env, r.trace, a, a);
      hide Went;
      forall i | a + 1 <= i < k
        ensures Went(c, monitored, env, r.trace, a, i)
      {
        WentBehind(c, monitored, env, a, pause, rest.trace, i);
      }
      BehindPair(a, pause, rest.trace, k);
    } else {
      k := a;
      TraceStops(c, monitored, env, a);
      assert Script(c, monitored, env, a).trace[0..] == Script(c, monitored, env, a).trace;
    }
  }

  lemma BehindPair(a: nat, pause: Event, rest: seq<Event>, k: nat)
    requires a + 1 <= k && 2 * (k - (a + 1)) <= |rest|
    ensures ([Call(a), pause] + rest)[2 * (k - a)..] == rest[2 * (k - (a + 1))..]
  {
    assert 2 * (k - a) == 2 * (k - (a + 1)) + 2;
  }

  lemma AttemptsLeft(c: RetryConfig, monitored: bool, env: Env, a: nat)
    requires Continues(c, monitored, env, a)
    ensures a < c.maxAttempts
  {
  }

  /** Attempt a went on: what that means. */
  lemma WentMeans(c: RetryConfig, monitored: bool, env: Env, trace: seq<Event>, a: nat)
    requires a >= 1 && Went(c, monitored, env, trace, 1, a)
    ensures 2 * a <= |trace| && trace[2 * a - 2] == Call(a) && IsPause(c, monitored, env, a, trace[2 * a - 1])
    ensures !env.doneAtTop(a) && env.op(a).Failed? && Retryable(c.retryableErrors, env.op(a).err)
    ensures if trace[2 * a - 1] == AwaitNetwork then !env.networkWaitFails(a) else !env.doneInSleep(a)
  {
    hide Retryable, IsPause;
    assert 2 * (a - 1) == 2 * a - 2;
  }

  /**
   What a run does.  Up to some attempt k each attempt a calls the operation, fails retryably,
   and pauses once.  Attempt k ends the run: before the call when the context is done, after it
   on success, on an error that is not retryable or at MaxAttempts, and otherwise in its pause.
   The outcome says which it was.
   */
  lemma RunTrace(c: RetryConfig, monitored: bool, env: Env) returns (k: nat)
    requires c.maxAttempts >= 1
    ensures var trace := Script(c, monitored, env, 1).trace;
      && 1 <= k <= c.maxAttempts && 2 * (k - 1) <= |trace| <= 2 * k
      && (forall a: nat :: 1 <= a < k ==>
            && trace[2 * a - 2] == Call(a) && env.op(a).Failed? && Retryable(c.retryableErrors, env.op(a).err)
            && !env.doneAtTop(a)
            && if trace[2 * a - 1] == AwaitNetwork then !env.networkWaitFails(a) else !env.doneInSleep(a))
      && (|trace| == 2 * k - 2 <==> env.doneAtTop(k))
      && (|trace| >= 2 * k - 1 ==> trace[2 * k - 2] == Call(k))
      && (|trace| == 2 * k <==>
            && !env.doneAtTop(k) && env.op(k).Failed? && Retryable(c.retryableErrors, env.op(k).err)
            && k < c.maxAttempts)
      && (|trace| == 2 * k ==>
            if trace[2 * k - 1] == AwaitNetwork then env.networkWaitFails(k) else env.doneInSleep(k))
    ensures var (trace, o) := (Script(c, monitored, env, 1).trace, Script(c, monitored, env, 1).outcome);
      if env.doneAtTop(k) then o == Cancelled
      else if |trace| == 2 * k then o == if trace[2 * k - 1] == AwaitNetwork then NetworkWaitCancelled else Cancelled
      else
        match env.op(k)
        case Ok(_) => o == Succeeded
        case Failed(err) => o == if Retryable(c.retryableErrors, err) then Exhausted(err) else NotRetryable(k, err)
  {
    k := TraceFrom(c, monitored, env, 1);
    var r := Script(c, monitored, env, 1);
    hide Script, Retryable, IsPause, Went;
    var trace, last := r.trace, r.trace[2 * (k - 1)..];
    assert |trace| == 2 * (k - 1) + |last|;
    assert |last| >= 1 ==> last[0] == trace[2 * k - 2];
    assert |last| == 2 ==> last[1] == trace[2 * k - 1];
    forall a: nat | 1 <= a < k
      ensures 2 * a <= |trace| && trace[2 * a - 2] == Call(a)
      ensures !env.doneAtTop(a) && env.op(a).Failed? && Retryable(c.retryableErrors, env.op(a).err)
      ensures if trace[2 * a - 1] == AwaitNetwork then !env.networkWaitFails(a) else !env.doneInSleep(a)
    {
      WentMeans(c, monitored, env, trace, a);
    }
  }

  /**
   The pause behind call a, also one that a cancellation cuts short: the network is awaited
   exactly when a monitor is asked for and reports down, and otherwise the backoff of a is
   slept, with up to a quarter more as jitter.
   */
  lemma RunPauses(c: RetryConfig, monitored: bool, env: Env, a: nat)
    requires Normal(c) && 0.0 <= env.random(a) < 1.0
    requires 1 <= a && 2 * a <= |Script(c, monitored, env, 1).trace|
    ensures var pause := Script(c, monitored, env, 1).trace[2 * a - 1];
      && (pause == AwaitNetwork <==> monitored && c.waitForNetwork && !env.isUp(a))
      && (pause != AwaitNetwork ==>
            && pause.Sleep? && BaseDelay(c, a).Floor <= pause.ns && pause.ns as real <= 1.25 * BaseDelay(c, a)
            && (!c.jitter ==> pause.ns == BaseDelay(c, a).Floor)
            && (c.jitter ==> pause.ns == (BaseDelay(c, a) * (1.0 + 0.25 * env.random(a))).Floor))
  {
    var k := TraceFrom(c, monitored, env, 1);
    var r := Script(c, monitored, env, 1);
    hide Script, Retryable, Delay;
    var trace, last := r.trace, r.trace[2 * (k - 1)..];
    assert |trace| == 2 * (k - 1) + |last| && |last| <= 2;
    if a < k {
      assert Went(c, monitored, env, trace, 1, a);
      hide Went;
      WentMeans(c, monitored, env, trace, a);
    } else {
      assert a == k && last[1] == trace[2 * k - 1];
    }
    DelayBounds(c, a, env.random(a));
    hide BaseDelay;
  }

  function TotalSleep(trace: seq<Event>): int {
    if trace == [] then 0 else (if trace[0].Sleep? then trace[0].ns else 0) + TotalSleep(trace[1..])
  }

  lemma SleepPair(a: nat, pause: Event, rest: seq<Event>)
    ensures TotalSleep([Call(a), pause] + rest) == (if pause.Sleep? then pause.ns else 0) + TotalSleep(rest)
  {
    var t := [Call(a), pause] + rest;
    assert t[1..] == [pause] + rest && t[1..][1..] == rest;
  }

  /** The longest unjittered pauses from attempt a on. */
  function Pauses(c: RetryConfig, a: int): int { (c.maxAttempts - a) * c.maxDelay }

  lemma PausesLeft(c: RetryConfig, a: int)
    requires Normal(c) && a <= c.maxAttempts
    ensures Pauses(c, a) >= 0
    ensures Pauses(c, a) == Pauses(c, a + 1) + c.maxDelay
  {
    assert (c.maxAttempts - a) * c.maxDelay == (c.maxAttempts - (a + 1)) * c.maxDelay + c.maxDelay;
  }

  lemma {:induction false} SleepFrom(c: RetryConfig, monitored: bool, env: Env, a: nat)
    requires Normal(c) && 1 <= a <= c.maxAttempts
    requires forall i :: 0.0 <= env.random(i) < 1.0
    ensures 0 <= 4 * TotalSleep(Script(c, monitored, env, a).trace) <= 5 * Pauses(c, a)
    decreases c.maxAttempts - a
  {
    hide Retryable, Delay, BaseDelay, Pauses;
    PausesLeft(c, a);
    if a < c.maxAttempts {
      SleepFrom(c, monitored, env, a + 1);
      DelayBounds(c, a, env.random(a));
      var s := Sleep(Delay(c, a, env.random(a)));
      SleepPair(a, s, Script(c, monitored, env, a + 1).trace);
      SleepPair(a, AwaitNetwork, Script(c, monitored, env, a + 1).trace);
      SleepPair(a, s, []);
      SleepPair(a, AwaitNetwork, []);
      assert [Call(a), s] + [] == [Call(a), s] && [Call(a), AwaitNetwork] + [] == [Call(a), AwaitNetwork];
    }
  }

  /** The backoff sleep of a whole run is at most 1.25 * (MaxAttempts - 1) * MaxDelay. */
  lemma TotalBackoffBound(c: RetryConfig, monitored: bool, env: Env)
    requires Normal(c) && forall i :: 0.0 <= env.random(i) < 1.0
    ensures 0 <= 4 * TotalSleep(Script(c, monitored, env, 1).trace) <= 5 * ((c.maxAttempts - 1) * c.maxDelay)
  {
    SleepFrom(c, monitored, env, 1);
  }

  function Sleeps(trace: seq<Event>): nat {
    if trace == [] then 0 else (if trace[0].Sleep? then 1 else 0) + Sleeps(trace[1..])
  }

  function Times(n: nat, ns: int): int { n * ns }

  lemma OneMore(n: nat, ns: int)
    ensures Times(0, ns) == 0 && Times(n + 1, ns) == Times(n, ns) + ns
  {
  }

  lemma {:induction false} SleepsJoin(a: seq<Event>, b: seq<Event>)
    ensures Sleeps(a + b) == Sleeps(a) + Sleeps(b) && TotalSleep(a + b) == TotalSleep(a) + TotalSleep(b)
  {
    if a == [] {
      assert a + b == b;
    } else {
      SleepsJoin(a[1..], b);
      assert (a + b)[1..] == a[1..] + b;
    }
  }

  lemma SleepsOfAttempt(a: nat, pause: Event)
    ensures Sleeps([Call(a), pause]) == if pause.Sleep? then 1 else 0
    ensures TotalSleep([Call(a), pause]) == if pause.Sleep? then pause.ns else 0
    ensures Sleeps([Call(a)]) == 0 && TotalSleep([Call(a)]) == 0
  {
    var t := [Call(a), pause];
    assert t[1..] == [pause] && [pause][1..] == [] && [Call(a)][1..] == [];
    assert Sleeps([pause]) == (if pause.Sleep? then 1 else 0) + Sleeps([]);
    assert TotalSleep([pause]) == (if pause.Sleep? then pause.ns else 0) + TotalSleep([]);
  }

  /** The first backoff in whole nanoseconds. */
  function FirstDelay(c: RetryConfig): int { if c.initialDelay < c.maxDelay then c.initialDelay else c.maxDelay }

  lemma DelayAtLeastFirst(c: RetryConfig, a: nat, random: real)
    requires Normal(c) && c.multiplier >= 1.0 && 1 <= a && 0.0 <= random < 1.0
    ensures Delay(c, a, random) >= FirstDelay(c)
  {
    BackoffRecurrence(c, a);
    BackoffMonotone(c, 1, a);
    DelayBounds(c, a, random);
    hide BaseDelay, Delay;
    assert FirstDelay(c) as real == BaseDelay(c, 1);
    FloorAtLeast(FirstDelay(c), BaseDelay(c, a));
  }

  lemma FloorAtLeast(n: int, x: real)
    requires n as real <= x
    ensures n <= x.Floor
  {
  }

  lemma {:induction false} SleepAtLeastFrom(c: RetryConfig, monitored: bool, env: Env, a: nat)
    requires Normal(c) && c.multiplier >= 1.0 && 1 <= a <= c.maxAttempts
    requires forall i :: 0.0 <= env.random(i) < 1.0
    ensures var trace := Script(c, monitored, env, a).trace; TotalSleep(trace) >= Times(Sleeps(trace), FirstDelay(c))
    decreases c.maxAttempts - a
  {
    hide Delay, Retryable, FirstDelay, Times;
    DelayAtLeastFirst(c, a, env.random(a));
    var r, rest := Script(c, monitored, env, a), Script(c, monitored, env, a + 1);
    OneMore(0, FirstDelay(c));
    if Continues(c, monitored, env, a) {
      var pause := TraceContinues(c, monitored, env, a);
      AttemptsLeft(c, monitored, env, a);
      hide Script;
      SleepAtLeastFrom(c, monitored, env, a + 1);
      SleepsJoin([Call(a), pause], rest.trace);
      SleepsOfAttempt(a, pause);
      OneMore(Sleeps(rest.trace), FirstDelay(c));
    } else {
      TraceStops(c, monitored, env, a);
      hide Script;
      if |r.trace| == 2 {
        assert r.trace == [Call(a), r.trace[1]];
        SleepsOfAttempt(a, r.trace[1]);
      } else {
        SleepsOfAttempt(a, AwaitNetwork);
      }
    }
  }

  /** With a multiplier of at least one, every sleep of a run lasts at least as long as the first backoff. */
  lemma TotalBackoffAtLeast(c: RetryConfig, monitored: bool, env: Env)
    requires Normal(c) && c.multiplier >= 1.0 && forall i :: 0.0 <= env.random(i) < 1.0
    ensures var trace := Script(c, monitored, env, 1).trace;
      TotalSleep(trace) >= Sleeps(trace) * (if c.initialDelay < c.maxDelay then c.initialDelay else c.maxDelay)
  {
    SleepAtLeastFrom(c, monitored, env, 1);
  }

  // ---------------------------------------------------------------- the three loops

  method Normalize(c: RetryConfig) returns (r: RetryConfig)
    ensures Normal(r) && (Normal(c) ==> r == c)
    ensures r.maxAttempts == (if c.maxAttempts <= 0 then 3 else c.maxAttempts)
    ensures r.initialDelay == (if c.initialDelay <= 0 then SECOND else c.initialDelay)
    ensures r.maxDelay == (if c.maxDelay <= 0 then 30 * SECOND else c.maxDelay)
    ensures r.multiplier == (if c.multiplier <= 0.0 then 2.0 else c.multiplier)
  {
    r := c;
    if r.maxAttempts <= 0 {
      r := r.(maxAttempts := 3);
    }
    if r.initialDelay <= 0 {
      r := r.(initialDelay := SECOND);
    }
    if r.maxDelay <= 0 {
      r := r.(maxDelay := 30 * SECOND);
    }
    if r.multiplier <= 0.0 {
      r := r.(multiplier := 2.0);
    }
  }

  /** Retryer.Do of retry/retry.go; `trace` logs what the loop did. */
  method Do(c: RetryConfig, monitored: bool, env: Env) returns (trace: seq<Event>, outcome: Outcome)
    ensures Run(trace, outcome) == Script(c, monitored, env, 1)
  {
    hide Retryable, Delay;
    trace := [];
    var attempt := 1;
    while attempt <= c.maxAttempts
      invariant attempt >= 1
      invariant Script(c, monitored, env, 1) == Prepend(trace, Script(c, monitored, env, attempt))
    {
      if env.doneAtTop(attempt) {
        return trace, Cancelled;
      }
      ghost var before := trace;
      var res := env.op(attempt);
      trace := trace + [Call(attempt)];
      if res.Ok? {
        return trace, Succeeded;
      }
      var retryable := IsRetryable(c.retryableErrors, Some(res.err));
      if !retryable {
        return trace, NotRetryable(attempt, res.err);
      }
      if attempt >= c.maxAttempts {
        return trace, Exhausted(res.err);
      }
      if monitored && c.waitForNetwork {
        if !env.isUp(attempt) {
          trace := trace + [AwaitNetwork];
          assert trace == before + [Call(attempt), AwaitNetwork];
          if env.networkWaitFails(attempt) {
            return trace, NetworkWaitCancelled;
          }
          PrependTwice(before, [Call(attempt), AwaitNetwork], Script(c, monitored, env, attempt + 1));
          attempt := attempt + 1;
          continue;
        }
      }
      var delay := Delay(c, attempt, env.random(attempt));
      trace := trace + [Sleep(delay)];
      assert trace == before + [Call(attempt), Sleep(delay)];
      if env.doneInSleep(attempt) {
        return trace, Cancelled;
      }
      PrependTwice(before, [Call(attempt), Sleep(delay)], Script(c, monitored, env, attempt + 1));
      attempt := attempt + 1;
    }
    outcome := FellThrough;
  }

  lemma PrependTwice(a: seq<Event>, b: seq<Event>, r: Run)
    ensures Prepend(a, Prepend(b, r)) == Prepend(a + b, r)
  {
    assert a + (b + r.trace) == a + b + r.trace;
  }

  /** Retryer.DoWithResult of retry/retry.go: the same trace, and the value of the successful call. */
  method DoWithResult(c: RetryConfig, monitored: bool, env: Env)
    returns (result: Option<int>, trace: seq<Event>, outcome: Outcome)
    ensures Run(trace, outcome) == Script(c, monitored, env, 1)
    ensures result.Some? <==> outcome == Succeeded
    ensures result.Some? ==>
      trace != [] && trace[|trace| - 1].Call? && env.op(trace[|trace| - 1].attempt) == Ok(result.value)
  {
    hide Retryable, Delay;
    trace := [];
    var attempt := 1;
    while attempt <= c.maxAttempts
      invariant attempt >= 1
      invariant Script(c, monitored, env, 1) == Prepend(trace, Script(c, monitored, env, attempt))
    {
      if env.doneAtTop(attempt) {
        return None, trace, Cancelled;
      }
      ghost var before := trace;
      var res := env.op(attempt);
      trace := trace + [Call(attempt)];
      if res.Ok? {
        return Some(res.value), trace, Succeeded;
      }
      var retryable := IsRetryable(c.retryableErrors, Some(res.err));
      if !retryable {
        return None, trace, NotRetryable(attempt, res.err);
      }
      if attempt >= c.maxAttempts {
        return None, trace, Exhausted(res.err);
      }
      if monitored && c.waitForNetwork {
        if !env.isUp(attempt) {
          trace := trace + [AwaitNetwork];
          assert trace == before + [Call(attempt), AwaitNetwork];
          if env.networkWaitFails(attempt) {
            return None, trace, NetworkWaitCancelled;
          }
          PrependTwice(before, [Call(attempt), AwaitNetwork], Script(c, monitored, env, attempt + 1));
          attempt := attempt + 1;
          continue;
        }
      }
      var delay := Delay(c, attempt, env.random(attempt));
      trace := trace + [Sleep(delay)];
      assert trace == before + [Call(attempt), Sleep(delay)];
      if env.doneInSleep(attempt) {
        return None, trace, Cancelled;
      }
      PrependTwice(before, [Call(attempt), Sleep(delay)], Script(c, monitored, env, attempt + 1));
      attempt := attempt + 1;
    }
    return None, trace, FellThrough;
  }

  /** The twin in cmd/hyperexport/retry.go, which knows no network: the same script without a monitor. */
  method TwinDo(c: RetryConfig, env: Env) returns (trace: seq<Event>, outcome: Outcome)
    ensures Run(trace, outcome) == Script(c, false, env, 1)
  {
    hide Retryable, Delay;
    trace := [];
    var attempt := 1;
    while attempt <= c.maxAttempts
      invariant attempt >= 1
      invariant Script(c, false, env, 1) == Prepend(trace, Script(c, false, env, attempt))
    {
      if env.doneAtTop(attempt) {
        return trace, Cancelled;
      }
      ghost var before := trace;
      var res := env.op(attempt);
      trace := trace + [Call(attempt)];
      if res.Ok? {
        return trace, Succeeded;
      }
      var retryable := IsRetryable(c.retryableErrors, Some(res.err));
      if !retryable {
        return trace, NotRetryable(attempt, res.err);
      }
      if attempt >= c.maxAttempts {
        return trace, Exhausted(res.err);
      }
      var delay := Delay(c, attempt, env.random(attempt));
      trace := trace + [Sleep(delay)];
      assert trace == before + [Call(attempt), Sleep(delay)];
      if env.doneInSleep(attempt) {
        return trace, Cancelled;
      }
      PrependTwice(before, [Call(attempt), Sleep(delay)], Script(c, false, env, attempt + 1));
      attempt := attempt + 1;
    }
    outcome := FellThrough;
  }
}
