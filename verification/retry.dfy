// internal/retry: bounded retries with capped, jittered exponential backoff.
//
// Durations are integer nanoseconds; the arithmetic between them is exact.

module Retry {
  import opened Common

  datatype Policy = Policy(
    maxAttempts: int, baseDelay: int, maxDelay: int, multiplier: real, jitterFraction: real)
  {
    function Attempts(): (n: nat) { if maxAttempts <= 0 then 3 else maxAttempts }

    function Base(): (d: nat) { if baseDelay <= 0 then 100 * MILLISECOND else baseDelay }

    function Cap(): (d: nat) { if maxDelay <= 0 then 5 * SECOND else maxDelay }

    function Factor(): real { if multiplier <= 0.0 then 2.0 else multiplier }
  }

  /** Products are named so that equal factors are seen to give equal products. */
  function Times(x: real, y: real): real { x * y }

  function Pow(x: real, n: nat): real {
    if n == 0 then 1.0 else Times(x, Pow(x, n - 1))
  }

  // ---------- The delay after one attempt ----------

  /** The value that the growth loop leaves after steps turns from base. */
  function Grow(base: real, factor: real, cap: real, steps: nat): real
    decreases steps
  {
    if steps == 0 then base
    else if Times(base, factor) >= cap then cap
    else Grow(Times(base, factor), factor, cap, steps - 1)
  }

  /** The delay after an attempt, without jitter. */
  function Unjittered(p: Policy, attempt: nat): real
    requires attempt >= 1
  {
    Grow(p.Base() as real, p.Factor(), p.Cap() as real, attempt - 1)
  }

  function ClosedForm(p: Policy, attempt: nat): real
    requires attempt >= 1
  {
    MinReal(Times(p.Base() as real, Pow(p.Factor(), attempt - 1)), p.Cap() as real)
  }

  lemma MulGrows(a: real, b: real, c: real)
    requires a <= b && c >= 0.0
    ensures Times(a, c) <= Times(b, c) && Times(c, a) <= Times(c, b)
  {
    assert (b - a) * c >= 0.0;
  }

  lemma {:induction false} PowPositive(x: real, n: nat)
    requires x > 0.0
    ensures Pow(x, n) > 0.0
    ensures x >= 1.0 ==> Pow(x, n) >= 1.0
  {
    if n > 0 {
      PowPositive(x, n - 1);
      if x >= 1.0 {
        MulGrows(1.0, x, Pow(x, n - 1));
      }
    }
  }

  lemma MulAssociates(a: real, b: real, c: real)
    ensures Times(Times(a, b), c) == Times(a, Times(b, c))
  {
  }

  /** Reaching the cap from within it takes a factor of at least one, and then
      every later power is past it as well. */
  lemma CapIsFinal(base: real, factor: real, cap: real, rest: nat)
    requires 0.0 < base <= cap && factor > 0.0 && Times(base, factor) >= cap
    ensures Times(Times(base, factor), Pow(factor, rest)) >= cap
  {
    assert factor >= 1.0 by {
      if factor < 1.0 {
        ShrinksBelow(base, factor);
        assert false;
      }
    }
    PowPositive(factor, rest);
    MulGrows(1.0, Pow(factor, rest), Times(base, factor));
  }

  lemma ShrinksBelow(base: real, factor: real)
    requires 0.0 < base && factor < 1.0
    ensures Times(base, factor) < base
  {
    assert base * (1.0 - factor) > 0.0;
  }

  /** From a start within the cap, the loop computes the capped power. */
  lemma {:induction false} GrowIsCappedPower(base: real, factor: real, cap: real, steps: nat)
    requires 0.0 < base <= cap && factor > 0.0
    ensures Grow(base, factor, cap, steps) == MinReal(Times(base, Pow(factor, steps)), cap)
    decreases steps
  {
    if steps > 0 {
      var next := Times(base, factor);
      MulAssociates(base, factor, Pow(factor, steps - 1));
      if next >= cap {
        CapIsFinal(base, factor, cap, steps - 1);
      } else {
        assert next > 0.0;
        GrowIsCappedPower(next, factor, cap, steps - 1);
      }
    }
  }

  lemma UnjitteredIsClosedForm(p: Policy, attempt: nat)
    requires attempt >= 1 && p.Base() <= p.Cap()
    ensures Unjittered(p, attempt) == ClosedForm(p, attempt)
  {
    var base, factor, cap := p.Base() as real, p.Factor(), p.Cap() as real;
    GrowIsCappedPower(base, factor, cap, attempt - 1);
  }

  /** The backoff is base * factor^(attempt - 1) capped at the maximum delay,
      after every attempt, exactly for the policies whose base delay respects
      the maximum. Otherwise the first delay already exceeds it. */
  lemma BackoffClosedForm(p: Policy)
    ensures (forall attempt: nat | attempt >= 1 :: Unjittered(p, attempt) == ClosedForm(p, attempt))
       <==> p.Base() <= p.Cap()
    ensures p.Base() > p.Cap() ==> Unjittered(p, 1) > p.Cap() as real
  {
    if p.Base() <= p.Cap() {
      forall attempt: nat | attempt >= 1
        ensures Unjittered(p, attempt) == ClosedForm(p, attempt)
      {
        UnjitteredIsClosedForm(p, attempt);
      }
    } else {
      assert Unjittered(p, 1) != ClosedForm(p, 1);
    }
  }

  /** And for every policy: the base, then either the maximum at once or the
      capped power. The defaults are 100ms, 5s and 2. */
  lemma BackoffIsKnown(p: Policy, attempt: nat)
    requires attempt >= 1
    ensures Unjittered(p, attempt) == KnownBackoff(
              (if p.baseDelay <= 0 then 100_000_000 else p.baseDelay) as real,
              if p.multiplier <= 0.0 then 2.0 else p.multiplier,
              (if p.maxDelay <= 0 then 5_000_000_000 else p.maxDelay) as real, attempt)
  {
    var base, factor, cap := p.Base() as real, p.Factor(), p.Cap() as real;
    if attempt > 1 && Times(base, factor) < cap {
      var next := Times(base, factor);
      assert next > 0.0;
      GrowIsCappedPower(next, factor, cap, attempt - 2);
      MulAssociates(base, factor, Pow(factor, attempt - 2));
    }
  }

  ghost function KnownBackoff(base: real, factor: real, cap: real, attempt: nat): real
    requires attempt >= 1
  {
    if attempt == 1 then base
    else if Times(base, factor) >= cap then cap
    else MinReal(Times(base, Pow(factor, attempt - 1)), cap)
  }

  lemma {:induction false} PowNeverShrinks(x: real, a: nat, b: nat)
    requires x >= 1.0 && a <= b
    ensures Pow(x, a) <= Pow(x, b)
    decreases b
  {
    if a < b {
      PowNeverShrinks(x, a, b - 1);
      PowPositive(x, b - 1);
      MulGrows(1.0, x, Pow(x, b - 1));
    }
  }

  /** With a factor of at least one the delays never shrink. */
  lemma BackoffNeverShrinks(p: Policy, a: nat, b: nat)
    requires 1 <= a <= b && p.Base() <= p.Cap() && p.Factor() >= 1.0
    ensures Unjittered(p, a) <= Unjittered(p, b) <= p.Cap() as real
  {
    var base, factor := p.Base() as real, p.Factor();
    UnjitteredIsClosedForm(p, a);
    UnjitteredIsClosedForm(p, b);
    PowNeverShrinks(factor, a - 1, b - 1);
    MulGrows(Pow(factor, a - 1), Pow(factor, b - 1), base);
  }

  /** Whatever the policy, no delay exceeds the larger of base and cap. */
  lemma {:induction false} GrowBounded(base: real, factor: real, cap: real, steps: nat)
    requires 0.0 < base && 0.0 < cap && factor > 0.0
    ensures 0.0 < Grow(base, factor, cap, steps) <= (if base <= cap then cap else base)
    decreases steps
  {
    if steps > 0 && Times(base, factor) < cap {
      GrowBounded(Times(base, factor), factor, cap, steps - 1);
    }
  }

  /** One draw of the random source spread over the jitter range. */
  function Jittered(delay: real, fraction: real, draw: real): real {
    var d := delay + Times(Times(draw * 2.0 - 1.0, fraction), delay);
    if d < 0.0 then 0.0 else d
  }

  lemma JitterRange(delay: real, fraction: real, draw: real)
    requires delay > 0.0 && fraction > 0.0 && 0.0 <= draw < 1.0
    ensures 0.0 <= Jittered(delay, fraction, draw)
    ensures delay - Times(fraction, delay) <= Jittered(delay, fraction, draw) < delay + Times(fraction, delay)
    ensures var share := Times(draw * 2.0 - 1.0, Times(fraction, delay));
            Jittered(delay, fraction, draw) == if share <= -delay then 0.0 else delay + share
  {
    var t, spread := draw * 2.0 - 1.0, Times(fraction, delay);
    MulAssociates(t, fraction, delay);
    assert spread > 0.0;
    MulGrows(-1.0, t, spread);
    ShrinksBelow(spread, t);
    CommutesTimes(spread, t);
  }

  lemma CommutesTimes(a: real, b: real)
    ensures Times(a, b) == Times(b, a)
  {
  }

  /** The delay that Do sleeps after an attempt; None is a missing random source. */
  function DelayAfter(p: Policy, attempt: nat, draw: Option<real>): int
    requires attempt >= 1
  {
    var d := Unjittered(p, attempt);
    (if p.jitterFraction > 0.0 && draw.Some? then Jittered(d, p.jitterFraction, draw.value) else d).Floor
  }

  /** The largest delay the policy can ask for: base or cap, plus the jitter. */
  function Ceiling(p: Policy): real {
    var top := Max(p.Base(), p.Cap()) as real;
    if p.jitterFraction > 0.0 then top + Times(p.jitterFraction, top) else top
  }

  /** The same from the fields: the larger of base and maximum, enlarged by the
      share of the jitter. */
  ghost function LongestDelay(p: Policy): real {
    var base := if p.baseDelay <= 0 then 100_000_000 else p.baseDelay;
    var cap := if p.maxDelay <= 0 then 5_000_000_000 else p.maxDelay;
    var top := (if base <= cap then cap else base) as real;
    Times(if p.jitterFraction > 0.0 then 1.0 + p.jitterFraction else 1.0, top)
  }

  lemma CeilingIsLongestDelay(p: Policy)
    ensures Ceiling(p) == LongestDelay(p)
  {
  }

  lemma DelayBounded(p: Policy, attempt: nat, draw: Option<real>)
    requires attempt >= 1
    requires draw.Some? ==> 0.0 <= draw.value < 1.0
    ensures 0 <= DelayAfter(p, attempt, draw) && DelayAfter(p, attempt, draw) as real <= Ceiling(p)
  {
    var base, factor, cap := p.Base() as real, p.Factor(), p.Cap() as real;
    var d, top, j := Unjittered(p, attempt), Max(p.Base(), p.Cap()) as real, p.jitterFraction;
    GrowBounded(base, factor, cap, attempt - 1);
    assert 0.0 < d <= top;
    if j > 0.0 {
      MulGrows(d, top, j);
      MulGrows(0.0, top, j);
      if draw.Some? {
        JitterRange(d, j, draw.value);
      }
    }
  }

  method ComputeDelay(p: Policy, attempt: nat, draw: Option<real>) returns (delay: int)
    requires attempt >= 1
    ensures delay == DelayAfter(p, attempt, draw)
    ensures p.jitterFraction <= 0.0 || draw.None? ==>
      delay == KnownBackoff((if p.baseDelay <= 0 then 100_000_000 else p.baseDelay) as real,
                            if p.multiplier <= 0.0 then 2.0 else p.multiplier,
                            (if p.maxDelay <= 0 then 5_000_000_000 else p.maxDelay) as real, attempt).Floor
  {
    BackoffIsKnown(p, attempt);
    var base := GrowLoop(p.Base() as real, p.Factor(), p.Cap() as real, attempt);
    if p.jitterFraction > 0.0 && draw.Some? {
      var offset := Times(Times(draw.value * 2.0 - 1.0, p.jitterFraction), base);
      base := base + offset;
      if base < 0.0 {
        base := 0.0;
      }
    }
    delay := base.Floor;
  }

  /** The growth loop inside ComputeDelay. */
  method GrowLoop(start: real, factor: real, cap: real, attempt: nat) returns (base: real)
    requires attempt >= 1
    ensures base == Grow(start, factor, cap, attempt - 1)
  {
    base := start;
    var i := 1;
    while i < attempt
      invariant 1 <= i <= attempt
      invariant Grow(start, factor, cap, attempt - 1) == Grow(base, factor, cap, attempt - i)
    {
      base := Times(base, factor);
      if base >= cap {
        base := cap;
        break;
      }
      i := i + 1;
    }
  }

  // ---------- The retry loop ----------

  type Error = string

  /** What the operation, the context, the policy's Retryable, the sleeper and
      the random source answer around each attempt, counted from 1. */
  datatype World = World(
    op: nat -> Option<Error>,        // None is success
    canceled: nat -> Option<Error>,  // the context's error when the attempt is about to start
    retryable: Error -> bool,
    sleep: nat -> Option<Error>,     // the sleeper's error after the attempt
    draw: nat -> Option<real>)

  datatype Result = Success | Exhausted(attempts: nat, last: Error) | Rejected(error: Error) | Interrupted(error: Error)

  /** After this attempt another one follows. */
  predicate Continues(p: Policy, w: World, attempt: nat) {
    && w.canceled(attempt).None?
    && w.op(attempt).Some?
    && attempt != p.Attempts()
    && w.retryable(w.op(attempt).value)
    && w.sleep(attempt).None?
  }

  /** The attempt was made and failed. */
  predicate Failed(w: World, attempt: nat) { w.canceled(attempt).None? && w.op(attempt).Some? }

  /** What Do returns when it ends at this attempt. */
  function Verdict(p: Policy, w: World, attempt: nat): Result
    requires !Continues(p, w, attempt)
  {
    if w.canceled(attempt).Some? then Interrupted(w.canceled(attempt).value)
    else if w.op(attempt).None? then Success
    else if attempt == p.Attempts() then Exhausted(attempt, w.op(attempt).value)
    else if !w.retryable(w.op(attempt).value) then Rejected(w.op(attempt).value)
    else Interrupted(w.sleep(attempt).value)
  }

  function TotalSleep(delays: seq<int>): int {
    if delays == [] then 0 else TotalSleep(delays[..|delays| - 1]) + delays[|delays| - 1]
  }

  /** The sleeps add up, however they are split. */
  lemma {:induction false} TotalSleepAdds(a: seq<int>, b: seq<int>)
    ensures TotalSleep(a + b) == TotalSleep(a) + TotalSleep(b)
    ensures |a| == 1 ==> TotalSleep(a) == a[0]
    decreases |b|
  {
    if b == [] {
      assert a + b == a;
    } else {
      var front, last := b[..|b| - 1], b[|b| - 1];
      TotalSleepAdds(a, front);
      assert (a + b)[..|a + b| - 1] == a + front;
    }
    assert |a| == 1 ==> a[..0] == [];
  }

  lemma {:induction false} TotalSleepBounded(delays: seq<int>, each: real, n: nat)
    requires forall i | 0 <= i < |delays| :: delays[i] as real <= each
    requires |delays| <= n && each >= 0.0
    ensures TotalSleep(delays) as real <= Times(n as real, each)
  {
    if delays == [] {
      MulGrows(0.0, n as real, each);
    } else {
      TotalSleepBounded(delays[..|delays| - 1], each, n - 1);
      assert n as real == (n - 1) as real + 1.0;
    }
  }

  /** Do ends at the first attempt that is not followed by another, returns the
      verdict of that attempt, and sleeps the policy's delay between attempts:
      at most maxAttempts calls, and a bounded total of sleep. Another attempt
      follows a failure that may be retried, until the limit of attempts, unless
      the context or the sleeper puts an end to it. */
  method Do(p: Policy, w: World) returns (r: Result, calls: nat, delays: seq<int>, ghost last: nat)
    requires forall k: nat :: w.draw(k).Some? ==> 0.0 <= w.draw(k).value < 1.0
    ensures 1 <= last <= p.Attempts() && !Continues(p, w, last)
    ensures forall k: nat | 1 <= k < last :: Continues(p, w, k)
    ensures r == Verdict(p, w, last)
    ensures var limit: nat := if p.maxAttempts <= 0 then 3 else p.maxAttempts;
            && last <= limit
            && (forall k: nat | 1 <= k < last ::
                  && w.canceled(k).None? && w.op(k).Some? && w.retryable(w.op(k).value) && w.sleep(k).None?)
            && (r.Success? <==> w.canceled(last).None? && w.op(last).None?)
            && (r.Exhausted? <==> Failed(w, last) && last == limit)
            && (r.Rejected? <==> Failed(w, last) && last != limit && !w.retryable(w.op(last).value))
            && (r.Interrupted? && w.canceled(last).None? ==>
                  Failed(w, last) && last != limit && w.retryable(w.op(last).value) && w.sleep(last).Some?)
            && (r.Exhausted? ==> r.attempts == limit)
            && |delays| == if r.Interrupted? && w.canceled(last).None? then last else last - 1
    ensures r.Exhausted? ==> r.last == w.op(last).value
    ensures r.Rejected? ==> r.error == w.op(last).value
    ensures r.Interrupted? ==>
      Some(r.error) == if w.canceled(last).Some? then w.canceled(last) else w.sleep(last)
    ensures calls == if w.canceled(last).Some? then last - 1 else last
    ensures calls <= p.Attempts()
    ensures last - 1 <= |delays| <= last && |delays| < p.Attempts()
    ensures forall k: nat | 1 <= k <= |delays| :: delays[k - 1] == DelayAfter(p, k, w.draw(k))
    ensures TotalSleep(delays) as real <= Times((p.Attempts() - 1) as real, Ceiling(p))
    ensures var limit: nat := if p.maxAttempts <= 0 then 3 else p.maxAttempts;
            TotalSleep(delays) as real <= Times((limit - 1) as real, LongestDelay(p))
  {
    CeilingIsLongestDelay(p);
    var maxN := p.Attempts();
    calls, delays := 0, [];
    var lastErr: Error := "";
    var attempt := 1;
    while attempt <= maxN
      invariant 1 <= attempt <= maxN + 1
      invariant forall k: nat | 1 <= k < attempt :: Continues(p, w, k)
      invariant forall k: nat | 1 <= k < attempt ::
        && w.canceled(k).None? && w.op(k).Some? && w.retryable(w.op(k).value) && w.sleep(k).None?
      invariant calls == |delays| == attempt - 1
      invariant forall k: nat | 1 <= k < attempt :: delays[k - 1] == DelayAfter(p, k, w.draw(k))
      invariant attempt > 1 ==> attempt <= maxN
    {
      last := attempt;
      if w.canceled(attempt).Some? {
        SleepWithinBudget(p, w, delays);
        return Interrupted(w.canceled(attempt).value), calls, delays, attempt;
      }
      var err := w.op(attempt);
      calls := calls + 1;
      if err.None? {
        SleepWithinBudget(p, w, delays);
        return Success, calls, delays, attempt;
      }
      lastErr := err.value;
      if attempt == maxN {
        break;
      }
      if !w.retryable(err.value) {
        SleepWithinBudget(p, w, delays);
        return Rejected(err.value), calls, delays, attempt;
      }
      var delay := ComputeDelay(p, attempt, w.draw(attempt));
      delays := delays + [delay];
      if w.sleep(attempt).Some? {
        SleepWithinBudget(p, w, delays);
        return Interrupted(w.sleep(attempt).value), calls, delays, attempt;
      }
      attempt := attempt + 1;
    }
    SleepWithinBudget(p, w, delays);
    r := Exhausted(maxN, lastErr);
  }

  lemma SleepWithinBudget(p: Policy, w: World, delays: seq<int>)
    requires forall k: nat :: w.draw(k).Some? ==> 0.0 <= w.draw(k).value < 1.0
    requires |delays| < p.Attempts()
    requires forall k: nat | 1 <= k <= |delays| :: delays[k - 1] == DelayAfter(p, k, w.draw(k))
    ensures TotalSleep(delays) as real <= Times((p.Attempts() - 1) as real, Ceiling(p))
  {
    forall i | 0 <= i < |delays|
      ensures delays[i] as real <= Ceiling(p)
    {
      DelayBounded(p, i + 1, w.draw(i + 1));
      assert delays[(i + 1) - 1] == DelayAfter(p, i + 1, w.draw(i + 1));
    }
    DelayBounded(p, 1, None);
    TotalSleepBounded(delays, Ceiling(p), p.Attempts() - 1);
  }
}
