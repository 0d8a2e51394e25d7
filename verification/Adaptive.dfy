/**
 AdaptiveBandwidthLimiter of cmd/hyperexport/bandwidth.go: a token bucket whose rate is
 moved between two speeds by moving averages of successes and errors.  The averages are
 exact reals; speeds are truncated to integers as in the source.
 */
module Adaptive {
  import opened Wrappers
  import opened Bandwidth

  const INTERVAL := 10 * SECOND

  datatype Adaptive = Adaptive(base: Bucket, minSpeed: int, maxSpeed: int, speed: int,
                               errorRate: real, successRate: real, lastAdjust: int)

  function OrDefault(speed: int, default: int): int { if speed <= 0 then default else speed }

  function CreatedAdaptive(minSpeed: int, maxSpeed: int, now: int): Adaptive {
    var lo, hi := OrDefault(minSpeed, 1024 * 1024), OrDefault(maxSpeed, 100 * 1024 * 1024);
    var speed := (lo + hi) / 2;
    Adaptive(Created(Some(Config(speed, 0)), now), lo, hi, speed, 0.0, 0.0, now)
  }

  function Smoothed(rate: real): real { rate * 0.9 + 0.1 }

  function NewSpeed(a: Adaptive): int {
    if a.successRate > 0.9 && a.errorRate < 0.05 then
      var up := a.speed * 12 / 10;
      if up > a.maxSpeed then a.maxSpeed else up
    else if a.errorRate > 0.1 then
      var down := a.speed * 8 / 10;
      if down < a.minSpeed then a.minSpeed else down
    else a.speed
  }

  function Adjusted(a: Adaptive, now: int): Adaptive {
    if now - a.lastAdjust < INTERVAL then a
    else
      var s := NewSpeed(a);
      a.(speed := s, base := if s != a.speed then a.base.(limit := s) else a.base, lastAdjust := now)
  }

  datatype Event = Success(now: int) | Failure(now: int) | Ask(now: int, n: nat)

  function Next(a: Adaptive, e: Event): Adaptive
    requires a.base.limit > 0
  {
    match e
    case Success(now) => Adjusted(a.(successRate := Smoothed(a.successRate)), now)
    case Failure(now) => Adjusted(a.(errorRate := Smoothed(a.errorRate)), now)
    case Ask(now, n) => a.(base := Attempt(a.base, now, n).0)
  }

  function Low(a: Adaptive): int { if a.minSpeed <= a.maxSpeed then a.minSpeed else a.maxSpeed }

  function High(a: Adaptive): int { if a.minSpeed <= a.maxSpeed then a.maxSpeed else a.minSpeed }

  ghost predicate Inv(a: Adaptive) {
    && 0 < Low(a) <= a.speed <= High(a)
    && a.base.limit == a.speed
    && 0 <= a.base.bucket <= a.base.size
    && 0.0 <= a.errorRate <= 1.0 && 0.0 <= a.successRate <= 1.0
  }

  lemma CreatedInv(minSpeed: int, maxSpeed: int, now: int)
    ensures var a := CreatedAdaptive(minSpeed, maxSpeed, now);
      Inv(a) && a.base.bucket == a.base.size == 2 * a.speed && a.base.lastRefill == now && a.errorRate == 0.0
  {
  }

  predicate Ordered(from: int, events: seq<Event>)
    decreases |events|
  {
    events == [] || (from <= events[0].now && Ordered(events[0].now, events[1..]))
  }

  function Granted(a: Adaptive, e: Event): nat
    requires a.base.limit > 0
  {
    if e.Ask? && Attempt(a.base, e.now, e.n).1 == Verdict.Granted then e.n else 0
  }

  /** The state after a run, and the bytes granted in it. */
  function Run(a: Adaptive, events: seq<Event>): (r: (Adaptive, nat))
    requires Inv(a)
    ensures Inv(r.0)
    decreases |events|
  {
    if events == [] then (a, 0)
    else
      InvStep(a, events[0]);
      var (b, g) := Run(Next(a, events[0]), events[1..]);
      (b, g + Granted(a, events[0]))
  }

  lemma InvStep(a: Adaptive, e: Event)
    requires Inv(a)
    ensures Inv(Next(a, e))
    ensures var b := Next(a, e);
      && b.minSpeed == a.minSpeed && b.maxSpeed == a.maxSpeed && b.base.size == a.base.size
      && High(b) == High(a)
  {
  }

  /**
   In every run the speed stays between the two configured speeds and is the limit the
   bucket enforces.  (With minSpeed > maxSpeed the bounds swap.)
   */
  lemma {:induction false} SpeedInRange(a: Adaptive, events: seq<Event>)
    requires Inv(a)
    ensures var b := Run(a, events).0;
      && Inv(b) && b.minSpeed == a.minSpeed && b.maxSpeed == a.maxSpeed && b.base.size == a.base.size
      && (a.minSpeed <= a.maxSpeed ==> a.minSpeed <= b.speed <= a.maxSpeed)
    decreases |events|
  {
    if events != [] {
      InvStep(a, events[0]);
      SpeedInRange(Next(a, events[0]), events[1..]);
    }
  }

  /** One event pays out of the bucket and of at most High * (refilled time). */
  lemma BudgetStep(a: Adaptive, e: Event)
    requires Inv(a) && a.base.lastRefill <= e.now
    ensures var b := Next(a, e);
      && a.base.lastRefill <= b.base.lastRefill <= e.now
      && (Granted(a, e) + b.base.bucket) * SECOND
           <= a.base.bucket * SECOND + Inflow(High(a), a.base.lastRefill, b.base.lastRefill)
  {
    hide Attempt, NewSpeed, Inflow;
    InflowNone(High(a), a.base.lastRefill);
    if e.Ask? {
      var c := Call(e.now, e.n);
      AttemptValid(a.base, c);
      AttemptBudget(a.base, c);
      FasterInflow(a.base.limit, High(a), a.base.lastRefill, Attempt(a.base, e.now, e.n).0.lastRefill);
    }
  }

  lemma FasterInflow(limit: int, high: int, from: int, to: int)
    requires limit <= high && from <= to
    ensures Inflow(limit, from, to) <= Inflow(high, from, to)
  {
  }

  lemma {:induction false} GrantedBudget(a: Adaptive, events: seq<Event>, from: int, t: int)
    requires Inv(a) && a.base.lastRefill <= from <= t && Ordered(from, events)
    requires forall i :: 0 <= i < |events| ==> events[i].now <= t
    ensures Run(a, events).1 * SECOND <= a.base.bucket * SECOND + Inflow(High(a), a.base.lastRefill, t)
    decreases |events|
  {
    if events != [] {
      hide Inv, Next, Granted, High, Inflow;
      var b := Next(a, events[0]);
      InvStep(a, events[0]);
      BudgetStep(a, events[0]);
      GrantedBudget(b, events[1..], events[0].now, t);
      InflowAdds(High(a), a.base.lastRefill, b.base.lastRefill, t);
    } else {
      hide Inflow;
      InflowOrder(High(a), a.base.lastRefill, from, t);
    }
  }

  /** From creation on, grants never exceed the initial bucket plus max speed times the time elapsed. */
  lemma GrantedNeverExceeds(minSpeed: int, maxSpeed: int, start: int, events: seq<Event>, t: int)
    requires start <= t && Ordered(start, events) && forall i :: 0 <= i < |events| ==> events[i].now <= t
    ensures var a := CreatedAdaptive(minSpeed, maxSpeed, start);
      Inv(a) && Run(a, events).1 * SECOND <= a.base.size * SECOND + High(a) * (t - start)
  {
    CreatedInv(minSpeed, maxSpeed, start);
    GrantedBudget(CreatedAdaptive(minSpeed, maxSpeed, start), events, start, t);
  }

  /** Once an error was recorded the error average never falls below a tenth again. */
  lemma ErrorStaysRecorded(a: Adaptive, e: Event)
    requires Inv(a) && (a.errorRate >= 0.1 || e.Failure?)
    ensures Next(a, e).errorRate >= 0.1
    ensures a.minSpeed <= a.maxSpeed ==> Next(a, e).speed <= a.speed
  {
  }

  /**
   After the first recorded error the speed never rises again, in any run, because no
   event lowers the error average.
   */
  lemma {:induction false} NeverFasterAfterError(a: Adaptive, events: seq<Event>)
    requires Inv(a) && a.minSpeed <= a.maxSpeed
    requires a.errorRate >= 0.1 || (events != [] && events[0].Failure?)
    ensures Run(a, events).0.speed <= a.speed
    decreases |events|
  {
    if events != [] {
      ErrorStaysRecorded(a, events[0]);
      InvStep(a, events[0]);
      NeverFasterAfterError(Next(a, events[0]), events[1..]);
    }
  }

  /** Whatever happened before a recorded error, nothing after it makes the limiter faster than just before it. */
  ghost predicate NeverRises(a: Adaptive, start: int)
    requires Inv(a)
  {
    forall before: seq<Event>, after: seq<Event> ::
      after != [] && after[0].Failure? && Ordered(start, before + after) ==>
      var b := Run(a, before).0; Run(b, after).0.speed <= b.speed
  }

  /** With the two speeds the wrong way round, two failures an interval apart raise the speed to minSpeed. */
  lemma SwappedSpeedsRise(minSpeed: int, maxSpeed: int, start: int)
    requires var a := CreatedAdaptive(minSpeed, maxSpeed, start); Inv(a) && a.minSpeed > a.maxSpeed
    ensures var a := CreatedAdaptive(minSpeed, maxSpeed, start);
      && Run(a, [Failure(start), Failure(start + INTERVAL)]).0.speed == a.minSpeed > a.speed
  {
    var a := CreatedAdaptive(minSpeed, maxSpeed, start);
    var first, second := Failure(start), Failure(start + INTERVAL);
    var b := Next(a, first);
    assert b.errorRate == 0.1 && b.speed == a.speed < a.minSpeed && b.lastAdjust == start;
    var c := Next(b, second);
    assert c.errorRate == 0.19 && c.speed == a.minSpeed;
    InvStep(a, first);
    InvStep(b, second);
    var es := [first, second];
    assert es[1..] == [second] && es[1..][1..] == [];
    assert Run(c, []).0 == c;
    assert Run(b, es[1..]).0 == c;
  }

  /** Errors never speed a new limiter up exactly when its minimum is at most its maximum speed. */
  lemma NeverRisesIff(minSpeed: int, maxSpeed: int, start: int)
    ensures var a := CreatedAdaptive(minSpeed, maxSpeed, start);
      Inv(a) && (NeverRises(a, start) <==> a.minSpeed <= a.maxSpeed)
  {
    CreatedInv(minSpeed, maxSpeed, start);
    var a := CreatedAdaptive(minSpeed, maxSpeed, start);
    hide Next, Granted, CreatedAdaptive;
    if a.minSpeed <= a.maxSpeed {
      forall before: seq<Event>, after: seq<Event> | after != [] && after[0].Failure? && Ordered(start, before + after)
        ensures Run(Run(a, before).0, after).0.speed <= Run(a, before).0.speed
      {
        SpeedInRange(a, before);
        NeverFasterAfterError(Run(a, before).0, after);
      }
    } else {
      var es := [Failure(start), Failure(start + INTERVAL)];
      SwappedSpeedsRise(minSpeed, maxSpeed, start);
      assert [] + es == es && es[1..] == [Failure(start + INTERVAL)] && es[1..][1..] == [];
      assert Ordered(start, [Failure(start + INTERVAL)]);
      assert Ordered(start, [] + es);
      assert Run(a, []).0 == a;
    }
  }

  // ---------------------------------------------------------------- where the speed goes

  /**
   An adjustment, at most once per ten seconds: up to the whole part of six fifths, but not
   beyond maxSpeed, when nearly all went well; down to that of four fifths, but not below
   minSpeed, when errors are frequent; and otherwise none.
   */
  lemma AdjustmentMeans(a: Adaptive, now: int)
    ensures var b := Adjusted(a, now);
      && b.successRate == a.successRate && b.errorRate == a.errorRate
      && (now - a.lastAdjust < 10_000_000_000 ==> b == a)
      && (now - a.lastAdjust >= 10_000_000_000 ==> b.lastAdjust == now)
      && (b.speed != a.speed ==> b.base == a.base.(limit := b.speed))
      && (now - a.lastAdjust >= 10_000_000_000 ==>
            if a.successRate > 0.9 && a.errorRate < 0.05 then
              && (5 * b.speed <= 6 * a.speed || b.speed == a.maxSpeed) && b.speed <= a.maxSpeed
              && (b.speed == a.maxSpeed || 6 * a.speed < 5 * (b.speed + 1))
            else if a.errorRate > 0.1 then
              && b.speed >= a.minSpeed && 4 * a.speed < 5 * (b.speed + 1)
              && (b.speed == a.minSpeed || 5 * b.speed <= 4 * a.speed)
            else b.speed == a.speed)
  {
  }

  /** n successes, or n failures, an interval apart. */
  function Successes(now: int, n: nat): seq<Event>
    decreases n
  {
    if n == 0 then [] else [Success(now)] + Successes(now + INTERVAL, n - 1)
  }

  function Failures(now: int, n: nat): seq<Event>
    decreases n
  {
    if n == 0 then [] else [Failure(now)] + Failures(now + INTERVAL, n - 1)
  }

  /** How far the average of successes still is from nine tenths, in hundredths. */
  function Lag(a: Adaptive): int { if a.successRate > 0.9 then 0 else ((1.0 - a.successRate) * 100.0).Floor }

  lemma SuccessGains(a: Adaptive, now: int)
    requires Inv(a) && a.minSpeed <= a.maxSpeed && a.errorRate < 0.05 && now - a.lastAdjust >= INTERVAL
    requires 5 <= a.speed < a.maxSpeed
    ensures var b := Next(a, Success(now));
      && b.errorRate == a.errorRate && b.lastAdjust == now && a.speed <= b.speed <= a.maxSpeed
      && 0 <= Lag(b) && (Lag(b) < Lag(a) || (Lag(b) == Lag(a) && a.speed < b.speed))
  {
    var r, q := a.successRate, Smoothed(a.successRate);
    assert q == r + 0.1 * (1.0 - r);
    if r <= 0.9 {
      assert (1.0 - q) * 100.0 <= (1.0 - r) * 100.0 - 1.0;
    }
  }

  lemma {:induction false} ReachesMax(a: Adaptive, now: int) returns (n: nat)
    requires Inv(a) && a.minSpeed <= a.maxSpeed && a.errorRate < 0.05 && now - a.lastAdjust >= INTERVAL
    requires a.speed >= 5
    ensures Run(a, Successes(now, n)).0.speed == a.maxSpeed
    decreases if Lag(a) < 0 then 0 else Lag(a), a.maxSpeed - a.speed
  {
    if a.speed == a.maxSpeed {
      n := 0;
    } else {
      var b := Next(a, Success(now));
      SuccessGains(a, now);
      InvStep(a, Success(now));
      LagSign(a);
      hide Next, Lag;
      n := ReachesMax(b, now + INTERVAL);
      assert Successes(now, n + 1)[1..] == Successes(now + INTERVAL, n);
      n := n + 1;
    }
  }

  lemma LagSign(a: Adaptive)
    requires Inv(a)
    ensures Lag(a) >= 0
  {
  }

  /** Below five bytes per second six fifths round down to the same speed: it never rises again, in any run. */
  lemma {:induction false} SlowStaysSlow(a: Adaptive, events: seq<Event>)
    requires Inv(a) && a.minSpeed <= a.maxSpeed && a.speed < 5
    ensures Run(a, events).0.speed <= a.speed
    decreases |events|
  {
    if events != [] {
      InvStep(a, events[0]);
      assert Next(a, events[0]).speed <= a.speed;
      SlowStaysSlow(Next(a, events[0]), events[1..]);
    }
  }

  /**
   As long as no error was recorded, successes bring the speed up to maxSpeed, exactly when it
   is there already or at least five bytes per second.
   */
  lemma SuccessesReachMaxIff(a: Adaptive, now: int)
    requires Inv(a) && a.minSpeed <= a.maxSpeed && a.errorRate < 0.05 && now - a.lastAdjust >= INTERVAL
    ensures (exists n :: Run(a, Successes(now, n)).0.speed == a.maxSpeed) <==> a.speed == a.maxSpeed || a.speed >= 5
  {
    if a.speed == a.maxSpeed {
      assert Run(a, Successes(now, 0)).0.speed == a.maxSpeed;
    } else if a.speed >= 5 {
      var n := ReachesMax(a, now);
    } else {
      forall n: nat
        ensures Run(a, Successes(now, n)).0.speed != a.maxSpeed
      {
        SlowStaysSlow(a, Successes(now, n));
      }
    }
  }

  lemma FailureLoses(a: Adaptive, now: int)
    requires Inv(a) && a.minSpeed <= a.maxSpeed && now - a.lastAdjust >= INTERVAL && a.speed > a.minSpeed
    ensures var b := Next(a, Failure(now));
      && b.lastAdjust == now && b.errorRate >= 0.1 && a.minSpeed <= b.speed <= a.speed
      && (a.errorRate >= 0.1 ==> b.speed < a.speed)
  {
  }

  /** Failures alone bring the speed down to minSpeed, from wherever it is. */
  lemma {:induction false} FailuresReachMin(a: Adaptive, now: int) returns (n: nat)
    requires Inv(a) && a.minSpeed <= a.maxSpeed && now - a.lastAdjust >= INTERVAL
    ensures Run(a, Failures(now, n)).0.speed == a.minSpeed
    decreases if a.errorRate < 0.1 then 1 else 0, a.speed - a.minSpeed
  {
    if a.speed == a.minSpeed {
      n := 0;
    } else {
      FailureLoses(a, now);
      InvStep(a, Failure(now));
      hide Next;
      n := FailuresReachMin(Next(a, Failure(now)), now + INTERVAL);
      assert Failures(now, n + 1)[1..] == Failures(now + INTERVAL, n);
      n := n + 1;
    }
  }

  class AdaptiveBandwidthLimiter {
    const baseLimiter: BandwidthLimiter
    const minSpeed: int
    const maxSpeed: int
    var currentSpeed: int
    var errorRate: real
    var successRate: real
    var lastAdjust: int

    ghost function View(): Adaptive
      reads this, baseLimiter
    {
      Adaptive(baseLimiter.View(), minSpeed, maxSpeed, currentSpeed, errorRate, successRate, lastAdjust)
    }

    constructor (min: int, max: int, now: int)
      ensures View() == CreatedAdaptive(min, max, now) && Inv(View()) && fresh(baseLimiter)
      ensures minSpeed == if min <= 0 then 1_048_576 else min
      ensures maxSpeed == if max <= 0 then 104_857_600 else max
      ensures currentSpeed == (minSpeed + maxSpeed) / 2 && errorRate == 0.0 && successRate == 0.0
    {
      var lo, hi := min, max;
      if lo <= 0 {
        lo := 1024 * 1024;
      }
      if hi <= 0 {
        hi := 100 * 1024 * 1024;
      }
      var speed := (lo + hi) / 2;
      minSpeed, maxSpeed, currentSpeed := lo, hi, speed;
      baseLimiter := new BandwidthLimiter(Some(Config(speed, 0)), now);
      errorRate, successRate, lastAdjust := 0.0, 0.0, now;
      new;
      CreatedInv(min, max, now);
    }

    method RecordSuccess(now: int)
      requires Inv(View())
      modifies this, baseLimiter
      ensures View() == Next(old(View()), Success(now)) && Inv(View())
      ensures successRate == 0.9 * old(successRate) + 0.1 && errorRate == old(errorRate)
    {
      InvStep(View(), Success(now));
      successRate := successRate * 0.9 + 0.1;
      AdjustSpeed(now);
    }

    method RecordError(now: int)
      requires Inv(View())
      modifies this, baseLimiter
      ensures View() == Next(old(View()), Failure(now)) && Inv(View())
      ensures errorRate == 0.9 * old(errorRate) + 0.1 && successRate == old(successRate)
    {
      InvStep(View(), Failure(now));
      errorRate := errorRate * 0.9 + 0.1;
      AdjustSpeed(now);
    }

    method AdjustSpeed(now: int)
      modifies this, baseLimiter
      ensures View() == Adjusted(old(View()), now)
    {
      if now - lastAdjust < INTERVAL {
        return;
      }
      var oldSpeed := currentSpeed;
      if successRate > 0.9 && errorRate < 0.05 {
        currentSpeed := currentSpeed * 12 / 10;
        if currentSpeed > maxSpeed {
          currentSpeed := maxSpeed;
        }
      } else if errorRate > 0.1 {
        currentSpeed := currentSpeed * 8 / 10;
        if currentSpeed < minSpeed {
          currentSpeed := minSpeed;
        }
      }
      if oldSpeed != currentSpeed {
        baseLimiter.limit := currentSpeed;
      }
      lastAdjust := now;
    }

    /** One attempt of the wrapped Wait. */
    method TryTake(now: int, n: nat) returns (v: Verdict)
      requires Inv(View())
      modifies baseLimiter
      ensures View() == Next(old(View()), Ask(now, n)) && Inv(View())
      ensures v == Attempt(old(View()).base, now, n).1
    {
      InvStep(View(), Ask(now, n));
      v := baseLimiter.TryTake(now, n);
    }
  }
}
