/** The health check loop of a starting process (proxy/process.go). The clock, the upstream server
    and the shutdown signal are the environment, seen through what iteration i of the loop observes. */
module HealthPolling {
  import opened ProcessStates

  /** Durations are in nanoseconds. */
  const INITIAL_DELAY := 200_000_000

  /** What iteration i of the loop observes: the time since the first check, the cancelled command
      context, the state of the process, the answer of the health endpoint, and a cancellation during
      the wait that ends the iteration. */
  datatype Environment = Environment(
    now: nat -> int,
    cancelled: nat -> bool,
    state: nat -> ProcessState,
    healthy: nat -> bool,
    cancelledWaiting: nat -> bool)

  datatype Outcome = Passed | Interrupted | ExitedEarly | TimedOut

  function FirstDelay(interval: int): int {
    if interval <= 0 || interval > INITIAL_DELAY then INITIAL_DELAY else interval
  }

  function NextDelay(interval: int, delay: int): int {
    if interval > 0 && delay < interval then
      if delay * 2 > interval then interval else delay * 2
    else
      delay
  }

  /** The wait that ends iteration i. */
  function Delay(interval: int, i: nat): (d: int)
    ensures d > 0
  {
    if i == 0 then FirstDelay(interval) else NextDelay(interval, Delay(interval, i - 1))
  }

  /** INITIAL_DELAY doubled i times. */
  function Doubled(i: nat): (d: int)
    ensures d >= INITIAL_DELAY
  {
    if i == 0 then INITIAL_DELAY else 2 * Doubled(i - 1)
  }

  /** The wait is the initial delay doubled at every retry and capped by the configured interval; it
      is constant when no interval is configured. */
  lemma {:induction false} DelayIs(interval: int, i: nat)
    ensures interval > 0 ==>
              Delay(interval, i) == if Doubled(i) <= interval then Doubled(i) else interval
    ensures interval <= 0 ==> Delay(interval, i) == 200_000_000
    ensures Doubled(0) == 200_000_000
  {
    if i == 0 {
    } else {
      DelayIs(interval, i - 1);
    }
  }

  /** The interval at which the loop ends up polling. */
  function Settled(interval: int): (d: int)
    ensures d > 0
  {
    if interval <= 0 then INITIAL_DELAY else interval
  }

  /** k is the number of retries after which the wait has reached that interval. */
  ghost predicate SettlesAfter(interval: int, k: nat) {
    && Doubled(k) >= interval
    && (k > 0 ==> Doubled(k - 1) < interval)
  }

  /** Every interval is reached, so the bound on the number of checks below is never vacuous. */
  lemma {:induction false} SomeRetrySettles(interval: int, from: nat) returns (k: nat)
    requires from > 0 ==> Doubled(from - 1) < interval
    ensures SettlesAfter(interval, k)
    decreases interval - Doubled(from)
  {
    if Doubled(from) >= interval {
      k := from;
    } else {
      k := SomeRetrySettles(interval, from + 1);
    }
  }

  lemma {:induction false} DoubledGrows(i: nat, j: nat)
    requires i <= j
    ensures Doubled(i) <= Doubled(j)
    decreases j
  {
    if i < j {
      DoubledGrows(i, j - 1);
    }
  }

  /** Time passes: an iteration lasts at least as long as the wait that ends it. */
  ghost predicate TimePasses(e: Environment, interval: int) {
    && e.now(0) >= 0
    && forall i: nat :: e.now(i + 1) >= e.now(i) + Delay(interval, i)
  }

  /** The loop goes on after iteration i. */
  predicate GoesOn(e: Environment, limit: int, i: nat) {
    && !e.cancelled(i)
    && e.state(i) == Starting
    && e.now(i) <= limit
    && !e.healthy(i)
    && !e.cancelledWaiting(i)
  }

  /** Iteration k is reached, and the loop ends there. */
  ghost predicate EndsAt(e: Environment, limit: int, k: nat) {
    && (forall i: nat :: i < k ==> GoesOn(e, limit, i))
    && !GoesOn(e, limit, k)
  }

  /** Iteration i asks the health endpoint. */
  predicate Asks(e: Environment, limit: int, i: nat) {
    !e.cancelled(i) && e.state(i) == Starting && e.now(i) <= limit
  }

  lemma SettledDelay(interval: int, k: nat, i: nat)
    requires SettlesAfter(interval, k) && i >= k
    ensures Delay(interval, i) == Settled(interval)
  {
    DelayIs(interval, i);
    DoubledGrows(k, i);
  }

  lemma OneMore(m: int, d: int)
    ensures (m + 1) * d == m * d + d
  {}

  lemma {:induction false} TimeLowerBound(e: Environment, interval: int, k: nat, m: nat)
    requires TimePasses(e, interval) && SettlesAfter(interval, k)
    ensures e.now(k + m) >= m * Settled(interval)
    decreases m
  {
    if m == 0 {
      NowNonNegative(e, interval, k);
    } else {
      var i: nat := k + m - 1;
      TimeLowerBound(e, interval, k, m - 1);
      SettledDelay(interval, k, i);
      assert e.now(i + 1) >= e.now(i) + Delay(interval, i);
      OneMore(m - 1, Settled(interval));
    }
  }

  lemma {:induction false} NowNonNegative(e: Environment, interval: int, i: nat)
    requires TimePasses(e, interval)
    ensures e.now(i) >= 0
  {
    if i == 0 {
    } else {
      NowNonNegative(e, interval, i - 1);
      assert e.now(i - 1 + 1) >= e.now(i - 1) + Delay(interval, i - 1);
    }
  }

  lemma QuotientBound(m: nat, d: int, limit: int)
    requires d > 0 && m * d <= limit
    ensures m <= limit / d
  {
    OneMore(limit / d, d);
    assert limit < (limit / d + 1) * d;
    if m >= limit / d + 1 {
      Scale(limit / d + 1, m, d);
      assert false;
    }
  }

  lemma Scale(m: int, n: int, d: int)
    requires d > 0 && m <= n
    ensures m * d <= n * d
  {}

  /** However the upstream behaves, the endpoint is asked at most limit / interval + k + 1 times,
      where k is the number of waits shorter than the interval: every index that asks is below that. */
  lemma AsksBounded(e: Environment, interval: int, limit: int, k: nat, i: nat)
    requires TimePasses(e, interval) && SettlesAfter(interval, k)
    requires limit >= 0 && Asks(e, limit, i)
    ensures i < limit / Settled(interval) + k + 1
  {
    if i >= k {
      TimeLowerBound(e, interval, k, i - k);
      QuotientBound(i - k, Settled(interval), limit);
    } else {
      QuotientBound(0, Settled(interval), limit);
    }
  }

  /** The wait never exceeds the interval at which the loop settles, when that is long enough to
      start with. */
  lemma DelayAtMostSettled(interval: int, i: nat)
    ensures Delay(interval, i) <= Settled(interval)
  {
    DelayIs(interval, i);
  }

  /** An upstream that is healthy from time h on is noticed if the limit leaves room for one more
      wait: when nothing stops the process and no iteration takes more than slack beyond its wait,
      the loop ends with a passed check, no later than h + Settled + slack. */
  lemma HealthyInTimeIsNoticed(e: Environment, interval: int, limit: int, h: int, slack: nat, k: nat)
    requires TimePasses(e, interval) && EndsAt(e, limit, k)
    requires e.now(0) <= slack && h >= 0
    requires forall i: nat :: e.now(i + 1) <= e.now(i) + Delay(interval, i) + slack
    requires forall i: nat ::
      !e.cancelled(i) && !e.cancelledWaiting(i) && e.state(i) == Starting
    requires forall i: nat :: e.now(i) >= h ==> e.healthy(i)
    requires h + Settled(interval) + slack <= limit
    ensures Asks(e, limit, k) && e.healthy(k)
    ensures e.now(k) <= h + Settled(interval) + slack
  {
    if k > 0 {
      assert GoesOn(e, limit, k - 1);
      assert e.now(k - 1 + 1) <= e.now(k - 1) + Delay(interval, k - 1) + slack;
      DelayAtMostSettled(interval, k - 1);
    }
  }

  lemma CountBounded(e: Environment, interval: int, limit: nat, k: nat, last: nat)
    requires TimePasses(e, interval) && SettlesAfter(interval, k) && EndsAt(e, limit, last)
    ensures last + (if Asks(e, limit, last) then 1 else 0) <= limit / Settled(interval) + k + 1
  {
    if Asks(e, limit, last) {
      AsksBounded(e, interval, limit, k, last);
    } else if last > 0 {
      assert GoesOn(e, limit, last - 1);
      AsksBounded(e, interval, limit, k, last - 1);
    } else {
      QuotientBound(0, Settled(interval), limit);
    }
  }

  /** The loop. It ends at the first iteration that does not go on, says why, and has asked the
      endpoint within the bound. */
  method Poll(e: Environment, interval: int, limit: nat) returns (outcome: Outcome, last: nat, asked: nat)
    requires TimePasses(e, interval)
    ensures EndsAt(e, limit, last)
    ensures forall i: nat :: i < last ==>
              !e.cancelled(i) && !e.cancelledWaiting(i) && e.state(i) == Starting && e.now(i) <= limit && !e.healthy(i)
    ensures match outcome
            case Passed => !e.cancelled(last) && e.state(last) == Starting && e.now(last) <= limit && e.healthy(last)
            case TimedOut => !e.cancelled(last) && e.state(last) == Starting && e.now(last) > limit
            case ExitedEarly => !e.cancelled(last) && e.state(last) == Stopped
            case Interrupted =>
              e.cancelled(last) || e.state(last) !in {Starting, Stopped}
              || (e.cancelledWaiting(last) && e.state(last) == Starting && e.now(last) <= limit && !e.healthy(last))
    ensures outcome == Passed <==> Asks(e, limit, last) && e.healthy(last)
    ensures outcome == TimedOut <==>
            !e.cancelled(last) && e.state(last) == Starting && e.now(last) > limit
    ensures outcome == ExitedEarly <==> !e.cancelled(last) && e.state(last) == Stopped
    ensures asked == last + (if Asks(e, limit, last) then 1 else 0)
    ensures forall k: nat :: SettlesAfter(interval, k) ==>
              asked <= limit / Settled(interval) + k + 1
  {
    var delay := interval;
    if delay <= 0 || delay > INITIAL_DELAY {
      delay := INITIAL_DELAY;
    }
    last, asked := 0, 0;
    outcome := Interrupted;
    while true
      invariant outcome == Interrupted
      invariant delay == Delay(interval, last) && asked == last
      invariant forall i: nat :: i < last ==> GoesOn(e, limit, i)
      decreases limit - e.now(last)
    {
      if e.cancelled(last) {
        break;
      }
      if e.state(last) != Starting {
        if e.state(last) == Stopped {
          outcome := ExitedEarly;
        }
        break;
      }
      if e.now(last) > limit {
        outcome := TimedOut;
        break;
      }
      asked := asked + 1;
      if e.healthy(last) {
        outcome := Passed;
        break;
      }
      if e.cancelledWaiting(last) {
        break;
      }
      if interval > 0 && delay < interval {
        delay := delay * 2;
        if delay > interval {
          delay := interval;
        }
      }
      assert e.now(last + 1) >= e.now(last) + Delay(interval, last);
      last := last + 1;
    }
    forall i: nat | i < last
      ensures !e.cancelled(i) && !e.cancelledWaiting(i) && e.state(i) == Starting && e.now(i) <= limit && !e.healthy(i)
    {
      assert GoesOn(e, limit, i);
    }
    forall k: nat | SettlesAfter(interval, k)
      ensures asked <= limit / Settled(interval) + k + 1
    {
      CountBounded(e, interval, limit, k, last);
    }
  }
}
