// internal/ratelimit: the token bucket.
//
// Instants and durations are integer nanoseconds, token counts are exact
// reals. The bucket keeps two numbers. Its specification keeps the whole
// history of calls and no bucket at all: a request fits when, for every
// earlier call, the tokens granted from that call on stay within what the
// window since that call allows.

module RateLimit {
  import opened Common

  /** One call that consulted the bucket: when, and how many tokens it got. */
  datatype Call = Call(at: int, granted: nat)

  /** Tokens that flow into the bucket in ns nanoseconds, which need not be a
      whole number. */
  function Inflow(rate: real, ns: real): real { rate * (ns / SECOND as real) }

  function Refill(rate: real, ns: int): real { Inflow(rate, ns as real) }

  lemma RefillAdds(rate: real, a: int, b: int)
    ensures Refill(rate, a + b) == Refill(rate, a) + Refill(rate, b)
  {
    var x, y := a as real / SECOND as real, b as real / SECOND as real;
    assert (a + b) as real / SECOND as real == x + y;
    assert rate * (x + y) == rate * x + rate * y;
  }

  lemma RefillGrows(rate: real, a: int, b: int)
    requires rate > 0.0 && a <= b
    ensures Refill(rate, a) <= Refill(rate, b)
  {
    RefillAdds(rate, a, b - a);
    var x := (b - a) as real / SECOND as real;
    assert x >= 0.0;
    assert rate * x >= 0.0;
  }

  function Granted(calls: seq<Call>): nat {
    if calls == [] then 0 else calls[0].granted + Granted(calls[1..])
  }

  lemma {:induction false} GrantedAppend(a: seq<Call>, b: seq<Call>)
    ensures Granted(a + b) == Granted(a) + Granted(b)
  {
    if a == [] {
      assert a + b == b;
    } else {
      assert (a + b)[1..] == a[1..] + b;
      GrantedAppend(a[1..], b);
    }
  }

  // ---------- The window specification ----------

  /** n more tokens stay within the window that opened at call i. */
  ghost predicate WithinWindow(rate: real, burst: int, calls: seq<Call>, i: nat, now: int, n: int)
    requires i < |calls|
  {
    (Granted(calls[i..]) + n) as real <= burst as real + Refill(rate, now - calls[i].at)
  }

  /** n tokens fit at instant now: they fit in the burst, and in the window
      that opened at any earlier call. */
  ghost predicate Fits(rate: real, burst: int, calls: seq<Call>, now: int, n: int) {
    && n <= burst
    && forall i | 0 <= i < |calls| :: WithinWindow(rate, burst, calls, i, now, n)
  }

  /** The tightest of those windows, as a number. */
  ghost function Slack(rate: real, burst: int, calls: seq<Call>, now: int): real {
    if calls == [] then
      burst as real
    else
      MinReal(Slack(rate, burst, calls[1..], now),
              burst as real + Refill(rate, now - calls[0].at) - Granted(calls) as real)
  }

  lemma {:induction false} SlackMeansFits(rate: real, burst: int, calls: seq<Call>, now: int, n: int)
    ensures n as real <= Slack(rate, burst, calls, now) <==> Fits(rate, burst, calls, now, n)
  {
    if calls != [] {
      var tail := calls[1..];
      SlackMeansFits(rate, burst, tail, now, n);
      forall i | 0 <= i < |tail|
        ensures WithinWindow(rate, burst, tail, i, now, n) == WithinWindow(rate, burst, calls, i + 1, now, n)
      {
        assert tail[i..] == calls[i + 1..];
      }
      assert calls[0..] == calls;
      if Fits(rate, burst, tail, now, n) && WithinWindow(rate, burst, calls, 0, now, n) {
        forall i | 0 <= i < |calls|
          ensures WithinWindow(rate, burst, calls, i, now, n)
        {
          assert i > 0 ==> WithinWindow(rate, burst, tail, i - 1, now, n);
        }
      }
    }
  }

  /** Waiting d nanoseconds widens every window by the same refill, up to the burst. */
  lemma {:induction false} SlackAdvance(rate: real, burst: int, calls: seq<Call>, now: int, d: nat)
    requires rate > 0.0
    ensures Slack(rate, burst, calls, now + d)
         == MinReal(burst as real, Slack(rate, burst, calls, now) + Refill(rate, d))
  {
    RefillGrows(rate, 0, d);
    assert Refill(rate, 0) == 0.0;
    if calls != [] {
      SlackAdvance(rate, burst, calls[1..], now, d);
      RefillAdds(rate, now - calls[0].at, d);
      assert now + d - calls[0].at == (now - calls[0].at) + d;
    }
  }

  /** A call at instant now takes what it was granted out of every window. */
  lemma {:induction false} SlackCharge(rate: real, burst: int, calls: seq<Call>, now: int, granted: nat)
    ensures Slack(rate, burst, calls + [Call(now, granted)], now)
         == Slack(rate, burst, calls, now) - granted as real
  {
    var c := Call(now, granted);
    if calls == [] {
      assert calls + [c] == [c];
      assert Granted([c]) == granted && [c][1..] == [];
      assert Refill(rate, 0) == 0.0;
    } else {
      assert (calls + [c])[1..] == calls[1..] + [c];
      GrantedAppend(calls, [c]);
      assert Granted([c]) == granted;
      SlackCharge(rate, burst, calls[1..], now, granted);
    }
  }

  // ---------- No window is ever over-granted ----------

  /** A history in call order in which every grant fitted when it was made. */
  ghost predicate Lawful(rate: real, burst: int, calls: seq<Call>) {
    && (forall i, j | 0 <= i <= j < |calls| :: calls[i].at <= calls[j].at)
    && forall k | 0 <= k < |calls| :: Fits(rate, burst, calls[..k], calls[k].at, calls[k].granted)
  }

  /** Any stretch of consecutive calls that lies between two instants was
      granted at most one burst plus the refill of that time. */
  lemma NoWindowOverGrants(rate: real, burst: int, calls: seq<Call>, i: nat, j: nat, from: int, to: int)
    requires rate > 0.0 && burst >= 0 && Lawful(rate, burst, calls)
    requires i < j <= |calls| && from <= calls[i].at && calls[j - 1].at <= to
    ensures Granted(calls[i..j]) as real <= burst as real + Refill(rate, to - from)
  {
    var k := j - 1;
    var before := calls[..k];
    assert calls[i..j] == calls[i..k] + [calls[k]];
    GrantedAppend(calls[i..k], [calls[k]]);
    assert Granted([calls[k]]) == calls[k].granted;
    assert Fits(rate, burst, before, calls[k].at, calls[k].granted);
    if i < k {
      assert WithinWindow(rate, burst, before, i, calls[k].at, calls[k].granted);
      assert before[i..] == calls[i..k] && before[i] == calls[i];
      RefillGrows(rate, calls[k].at - calls[i].at, to - from);
    } else {
      assert calls[i..k] == [];
      RefillGrows(rate, 0, to - from);
      assert Refill(rate, 0) == 0.0;
    }
  }

  // ---------- The bucket ----------

  datatype WaitResult = Ok | BurstExceeded | Canceled

  /** How long WaitN asks its timer to run when need tokens are missing:
      truncated to whole nanoseconds, one millisecond when that leaves nothing. */
  function RequestedWait(rate: real, need: real): int
    requires rate > 0.0
  {
    var wait := (need / rate * SECOND as real).Floor;
    if wait <= 0 then MILLISECOND else wait
  }

  /** After the requested wait less than one nanosecond's worth of tokens is
      still missing; nothing is when that little was missing to begin with. A
      request overshoots what is missing by at most a millisecond. */
  lemma RequestedWaitCovers(rate: real, need: real)
    requires rate > 0.0 && need > 0.0
    ensures 0 < RequestedWait(rate, need)
    ensures need - Refill(rate, RequestedWait(rate, need)) < Refill(rate, 1)
    ensures need < Refill(rate, 1) ==> RequestedWait(rate, need) == MILLISECOND
    ensures need < Refill(rate, 1) ==> Refill(rate, RequestedWait(rate, need)) >= need
    ensures Refill(rate, RequestedWait(rate, need) - MILLISECOND) <= need
    ensures need >= Refill(rate, 1) ==>
      Refill(rate, RequestedWait(rate, need)) <= need < Refill(rate, RequestedWait(rate, need) + 1)
  {
    var wait := (need / rate * SECOND as real).Floor;
    TruncatedWait(rate, need);
    RefillAdds(rate, wait, 1);
    assert Refill(rate, 0) == 0.0;
    if wait <= 0 {
      RefillGrows(rate, wait + 1, MILLISECOND);
      RefillGrows(rate, 1, MILLISECOND);
    } else {
      RefillGrows(rate, 1, wait);
      RefillGrows(rate, wait - MILLISECOND, wait);
    }
  }

  /** What is missing flows in between the truncated wait and a nanosecond more. */
  lemma TruncatedWait(rate: real, need: real)
    requires rate > 0.0
    ensures var wait := (need / rate * SECOND as real).Floor;
            Refill(rate, wait) <= need < Refill(rate, wait + 1)
  {
    var exact := need / rate * SECOND as real;
    NanosecondsFor(rate, need);
    InflowGrows(rate, exact.Floor as real, exact);
    InflowGrows(rate, exact, (exact.Floor + 1) as real);
  }

  lemma NanosecondsFor(rate: real, need: real)
    requires rate > 0.0
    ensures Inflow(rate, need / rate * SECOND as real) == need
  {
    var q := need / rate;
    assert q * SECOND as real / SECOND as real == q;
  }

  lemma InflowGrows(rate: real, a: real, b: real)
    requires rate > 0.0
    ensures a <= b ==> Inflow(rate, a) <= Inflow(rate, b)
    ensures a < b ==> Inflow(rate, a) < Inflow(rate, b)
  {
    var x, y := a / SECOND as real, b / SECOND as real;
    if a < b {
      assert rate * (y - x) > 0.0;
      assert rate * (y - x) == rate * y - rate * x;
    }
  }

  /** The wait that WaitN computes from what is missing. */
  method WaitFor(rate: real, need: real) returns (wait: int)
    requires rate > 0.0
    ensures wait == RequestedWait(rate, need)
  {
    wait := (need / rate * SECOND as real).Floor;
    if wait <= 0 {
      wait := MILLISECOND;
    }
  }

  /** One sleep of WaitN: what it asks the timer for leaves less than one
      nanosecond's worth missing, and nothing when that little was missing. */
  lemma SleepClosesTheGap(rate: real, burst: int, calls: seq<Call>, now: int, n: int, late: nat)
    requires rate > 0.0 && n <= burst && Slack(rate, burst, calls, now) < n as real
    ensures var wait := RequestedWait(rate, n as real - Slack(rate, burst, calls, now));
            var after := Slack(rate, burst, calls, now + wait + late);
            && n as real - after < Refill(rate, 1)
            && (n as real - Slack(rate, burst, calls, now) < Refill(rate, 1) ==> after >= n as real)
  {
    var need := n as real - Slack(rate, burst, calls, now);
    var wait := RequestedWait(rate, need);
    RequestedWaitCovers(rate, need);
    SlackAdvance(rate, burst, calls, now, wait + late);
    RefillGrows(rate, wait, wait + late);
    RefillGrows(rate, 0, 1);
    assert Refill(rate, 0) == 0.0;
    assert now + wait + late == now + (wait + late);
  }

  /** What the timers were asked for lets no more than the missing tokens in,
      but for a millisecond per sleep. */
  lemma SleptIsNeeded(rate: real, n: int, level: real, sleeps: nat, requested: int)
    requires rate > 0.0
    ensures sleeps > 0 && level < n as real
            && requested == RequestedWait(rate, n as real - level) + (sleeps - 1) * MILLISECOND ==>
      level + Refill(rate, requested - sleeps * MILLISECOND) <= n as real
  {
    var need := n as real - level;
    if need > 0.0 {
      RequestedWaitCovers(rate, need);
    }
    assert RequestedWait(rate, need) + (sleeps - 1) * MILLISECOND - sleeps * MILLISECOND
        == RequestedWait(rate, need) - MILLISECOND;
  }

  /** The context ends during none of the first sleeps. */
  ghost predicate NoneCanceled(canceled: nat -> bool, sleeps: nat) { forall k: nat | k < sleeps :: !canceled(k) }

  lemma OneMoreUncanceled(canceled: nat -> bool, sleeps: nat)
    requires NoneCanceled(canceled, sleeps) && !canceled(sleeps)
    ensures NoneCanceled(canceled, sleeps + 1)
  {
  }

  class Bucket {
    const rate: real
    const burst: int
    var tokens: real
    var lastFill: int
    ghost var calls: seq<Call>  // every call so far that consulted the bucket

    ghost predicate Valid() reads this {
      && rate > 0.0 && burst >= 1
      && 0.0 <= tokens
      && tokens == Slack(rate, burst, calls, lastFill)
      && Lawful(rate, burst, calls)
      && forall i | 0 <= i < |calls| :: calls[i].at <= lastFill
    }

    constructor (ratePerSec: real, burst: int, now: int)
      requires ratePerSec > 0.0 && burst >= 1
      ensures Valid() && calls == [] && lastFill == now
      ensures rate == ratePerSec && this.burst == burst
    {
      rate := ratePerSec;
      this.burst := burst;
      tokens := burst as real;
      lastFill := now;
      calls := [];
    }

    /** The bucket's fill level at an instant, by the window specification. */
    ghost function Level(now: int): real reads this {
      Slack(rate, burst, calls, Max(lastFill, now))
    }

    method RefillLocked(now: int)
      requires Valid()
      modifies this`tokens, this`lastFill
      ensures Valid()
      ensures lastFill == Max(old(lastFill), now)
      ensures tokens == old(Level(now))
    {
      var elapsed := now - lastFill;
      if elapsed <= 0 {
        return;
      }
      SlackAdvance(rate, burst, calls, lastFill, elapsed);
      RefillGrows(rate, 0, elapsed);
      assert Refill(rate, 0) == 0.0;
      tokens := tokens + rate * (elapsed as real / SECOND as real);
      if tokens > burst as real {
        tokens := burst as real;
      }
      lastFill := now;
    }

    /** Adds a call to the history; the tokens have already been taken. */
    ghost method Record(granted: nat)
      requires rate > 0.0 && burst >= 1
      requires tokens + granted as real == Slack(rate, burst, calls, lastFill)
      requires 0.0 <= tokens && Lawful(rate, burst, calls)
      requires forall i | 0 <= i < |calls| :: calls[i].at <= lastFill
      modifies this`calls
      ensures Valid() && calls == old(calls) + [Call(lastFill, granted)]
      ensures Granted(calls) == Granted(old(calls)) + granted
      ensures Slack(rate, burst, calls, lastFill) == tokens
    {
      GrantedAppend(calls, [Call(lastFill, granted)]);
      SlackCharge(rate, burst, calls, lastFill, granted);
      SlackMeansFits(rate, burst, calls, lastFill, granted);
      var before := calls;
      calls := calls + [Call(lastFill, granted)];
      forall k | 0 <= k < |calls|
        ensures Fits(rate, burst, calls[..k], calls[k].at, calls[k].granted)
      {
        if k < |before| {
          assert calls[..k] == before[..k];
        } else {
          assert calls[..k] == before;
        }
      }
    }

    /** A request for n tokens is granted exactly when it fits every window.
        An instant before one already seen counts as the latest one seen. */
    method AllowN(n: int, now: int) returns (ok: bool)
      requires Valid()
      modifies this
      ensures Valid()
      ensures ok <==> n <= 0 || old(Fits(rate, burst, calls, Max(lastFill, now), n))
      ensures n <= 0 ==> lastFill == old(lastFill) && calls == old(calls)
      ensures n > 0 ==> lastFill == Max(old(lastFill), now)
      ensures n > 0 ==> calls == old(calls) + [Call(lastFill, if ok then n else 0)]
    {
      if n <= 0 {
        return true;
      }
      RefillLocked(now);
      SlackMeansFits(rate, burst, calls, lastFill, n);
      if tokens >= n as real {
        tokens := tokens - n as real;
        Record(n);
        return true;
      }
      Record(0);
      return false;
    }

    /** The locked part of one turn of WaitN's loop. */
    method Poll(n: nat, now: int) returns (ok: bool, need: real)
      requires Valid() && lastFill <= now && 0 < n <= burst
      modifies this
      ensures Valid() && lastFill == now
      ensures ok <==> n as real <= old(Level(now))
      ensures calls == old(calls) + [Call(now, if ok then n else 0)]
      ensures Granted(calls) == Granted(old(calls)) + if ok then n else 0
      ensures !ok ==> Level(now) == old(Level(now)) && need == n as real - Level(now)
    {
      RefillLocked(now);
      need := n as real - tokens;
      ok := tokens >= n as real;
      if ok {
        tokens := tokens - n as real;
        Record(n);
      } else {
        Record(0);
      }
    }

    /** Where WaitN stands after so many sleeps: level is what the bucket held
        at the start, late tells how late its timers fired. */
    ghost predicate Slept(n: int, start: int, level: real, late: nat -> nat, sleeps: nat, requested: nat, now: int)
      reads this
    {
      && Valid() && lastFill <= now && sleeps <= 2
      && now == start + requested + (if sleeps > 0 then late(0) else 0) + (if sleeps > 1 then late(1) else 0)
      && (sleeps == 0 ==> requested == 0 && Level(now) == level)
      && (sleeps == 1 ==> n as real - Level(now) < Refill(rate, 1))
      && (sleeps == 2 ==> Level(now) >= n as real)
      && (sleeps > 0 ==>
            level < n as real && requested == RequestedWait(rate, n as real - level) + (sleeps - 1) * MILLISECOND)
    }

    lemma OneMoreSleep(n: int, start: int, level: real, late: nat -> nat, sleeps: nat, requested: nat, now: int)
      requires Slept(n, start, level, late, sleeps, requested, now) && lastFill == now
      requires 0 < n <= burst && Level(now) < n as real
      ensures sleeps < 2
      ensures var wait := RequestedWait(rate, n as real - Level(now));
              && wait > 0
              && Slept(n, start, level, late, sleeps + 1, requested + wait, now + wait + late(sleeps))
    {
      var need := n as real - Level(now);
      var wait := RequestedWait(rate, need);
      RequestedWaitCovers(rate, need);
      SleepClosesTheGap(rate, burst, calls, now, n, late(sleeps));
    }

    /** One turn of WaitN's loop: the tokens are taken, or the context ends the
        sleep, or the sleep is over and another turn follows. */
    method WaitTurn(n: int, ghost start: int, ghost level: real, late: nat -> nat, canceled: nat -> bool,
                    sleeps: nat, requested: nat, now: int)
      returns (r: Option<WaitResult>, wait: nat)
      requires Slept(n, start, level, late, sleeps, requested, now) && 0 < n <= burst
      modifies this
      ensures Valid() && Granted(calls) == Granted(old(calls)) + (if r == Some(Ok) then n else 0)
      ensures r.None? ==>
        && wait > 0 && !canceled(sleeps) && sleeps < 2
        && Slept(n, start, level, late, sleeps + 1, requested + wait, now + wait + late(sleeps))
      ensures r == Some(Ok) <==> n as real <= old(Level(now))
      ensures r == Some(Ok) ==> calls != [] && calls[|calls| - 1] == Call(now, n)
      ensures r.Some? && r != Some(Ok) ==> r == Some(Canceled) && canceled(sleeps) && Level(now) < n as real
    {
      wait := 0;
      var ok, need := Poll(n, now);
      if ok {
        return Some(Ok), wait;
      }
      if canceled(sleeps) {
        return Some(Canceled), wait;
      }
      wait := WaitFor(rate, need);
      OneMoreSleep(n, start, level, late, sleeps, requested, now);
      r := None;
    }

    /** Waiting for n tokens when nobody else draws from the bucket. Timer k
        fires late(k) nanoseconds after the requested wait; canceled(k) says
        that the context ends during sleep k instead. At most two sleeps
        happen, and together they ask for at most one millisecond per sleep
        more than the time in which the missing tokens flow in. The context
        decides: with a sleep entered that it ends, WaitN fails and takes nothing. */
    method WaitN(n: int, start: int, late: nat -> nat, canceled: nat -> bool)
      returns (r: WaitResult, sleeps: nat, requested: nat, now: int)
      requires Valid() && lastFill <= start
      modifies this
      ensures Valid() && sleeps <= 2
      ensures r.BurstExceeded? <==> n > burst
      ensures r.Canceled? ==> canceled(sleeps) && Level(now) < n as real
      ensures forall k: nat | k < sleeps :: !canceled(k)
      ensures 0 < sleeps ==>
        requested == RequestedWait(rate, n as real - old(Level(start))) + (sleeps - 1) * MILLISECOND
      ensures n <= 0 || n > burst ==> sleeps == 0 && calls == old(calls)
      ensures !r.Canceled? ==>
        now == start + requested + (if sleeps > 0 then late(0) else 0) + (if sleeps > 1 then late(1) else 0)
      ensures r.Ok? && n > 0 ==> calls != [] && calls[|calls| - 1] == Call(now, n)
      ensures Granted(calls) == Granted(old(calls)) + if r.Ok? && n > 0 then n else 0
      ensures 0 < n && n as real <= old(Level(start)) ==> n > burst || (r.Ok? && sleeps == 0)
      ensures 0 < n <= burst && n as real > old(Level(start)) ==>
        r.Canceled? || (sleeps > 0 && old(Level(start)) + Refill(rate, requested - sleeps * MILLISECOND) <= n as real)
    {
      r, sleeps, requested, now := Ok, 0, 0, start;
      if n <= 0 {
        return;
      }
      if n > burst {
        r := BurstExceeded;
        return;
      }
      ghost var level := Level(start);
      while true
        invariant Slept(n, start, level, late, sleeps, requested, now)
        invariant Granted(calls) == Granted(old(calls))
        invariant NoneCanceled(canceled, sleeps)
        decreases 2 - sleeps
      {
        var outcome, wait := WaitTurn(n, start, level, late, canceled, sleeps, requested, now);
        if outcome.Some? {
          r := outcome.value;
          SleptIsNeeded(rate, n, level, sleeps, requested);
          return;
        }
        OneMoreUncanceled(canceled, sleeps);
        now := now + wait + late(sleeps);
        requested := requested + wait;
        sleeps := sleeps + 1;
      }
    }
  }
}
