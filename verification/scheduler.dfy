// internal/scheduler: registration, due times and launches.
//
// Instants and durations are integer nanoseconds; None is the zero time. This
// module follows one caller at a time; SchedulerLoop adds time and the Start
// loop, SchedulerRuns adds concurrent callers.

module Scheduler {
  import opened Common

  const IDLE_TIMEOUT: int := 60_000_000_000

  datatype Job = Job(name: string, hasFunc: bool, interval: int, at: Option<int>)

  datatype ScheduleError = NameRequired | NoFunc | NoSchedule | Stopped

  /** The due time that a launch leaves behind: one interval after the run
      started, or none for a one-shot job. */
  function NextAfter(interval: int, runStart: int): Option<int> {
    if interval > 0 then Some(runStart + interval) else None
  }

  predicate Due(nextDue: Option<int>, now: int) { nextDue.Some? && nextDue.value <= now }

  // ---------- Launch spacing ----------

  /** The launches of one entry, as the due times allow them: none early, and
      each at least one interval after the one before; a single one at most
      when there is no interval. */
  ghost predicate Spaced(launches: seq<int>, firstDue: int, interval: int) {
    && (launches != [] ==> launches[0] >= firstDue)
    && (forall k | 0 < k < |launches| :: launches[k] >= launches[k - 1] + interval)
    && (interval <= 0 ==> |launches| <= 1)
  }

  lemma MulStep(k: nat, interval: int)
    ensures (k + 1) * interval == k * interval + interval
  {
  }

  /** The k-th launch comes no earlier than k intervals after the first due time. */
  lemma {:induction false} KthLaunch(launches: seq<int>, firstDue: int, interval: int, k: nat)
    requires Spaced(launches, firstDue, interval) && k < |launches|
    ensures launches[k] >= firstDue + k * interval
  {
    if k > 0 {
      KthLaunch(launches, firstDue, interval, k - 1);
      MulStep(k - 1, interval);
    }
  }

  /** Launches up to an instant are at most one more than the intervals that
      fit between the first due time and that instant. */
  lemma LaunchesBounded(launches: seq<int>, firstDue: int, interval: int, until: int)
    requires Spaced(launches, firstDue, interval) && interval > 0
    requires forall k | 0 <= k < |launches| :: launches[k] <= until
    ensures launches != [] ==> |launches| <= 1 + (until - firstDue) / interval
  {
    if launches != [] {
      var k := |launches| - 1;
      KthLaunch(launches, firstDue, interval, k);
      QuotientBound(k, interval, until - firstDue);
    }
  }

  lemma QuotientBound(k: nat, d: int, n: int)
    requires d > 0 && k * d <= n
    ensures k <= n / d
  {
    if k > n / d {
      assert n == d * (n / d) + n % d;
      MulGrows(n / d + 1, k, d);
      assert false;
    }
  }

  lemma MulGrows(a: int, b: int, d: int)
    requires a <= b && d > 0
    ensures a * d <= b * d
  {
    assert (b - a) * d >= 0;
  }

  // ---------- The earliest due time ----------

  ghost predicate IsEarliest(r: Option<int>, dues: set<int>) {
    if r.None? then dues == {} else r.value in dues && forall d | d in dues :: r.value <= d
  }

  /** How long Start sleeps, given the earliest due time. */
  function SleepFor(next: Option<int>, now: int): (d: int)
    ensures 0 < d <= IDLE_TIMEOUT
  {
    if next.None? then IDLE_TIMEOUT
    else if next.value - now <= 0 then MICROSECOND
    else if next.value - now > IDLE_TIMEOUT then IDLE_TIMEOUT
    else next.value - now
  }

  // ---------- Entries and the scheduler ----------

  /** A registered job; firstDue and launches are its history. */
  datatype Entry = Entry(interval: int, nextDue: Option<int>, running: bool, firstDue: int, launches: seq<int>) {
    predicate Ready(now: int) { Due(nextDue, now) && !running }

    ghost predicate Valid() {
      && Spaced(launches, firstDue, interval)
      && nextDue == if launches == [] then Some(firstDue) else NextAfter(interval, launches[|launches| - 1])
    }

    /** A launch at now: claimed, moved on to the next due time, remembered. */
    function Launched(now: int): Entry {
      Entry(interval, NextAfter(interval, now), true, firstDue, launches + [now])
    }
  }

  lemma LaunchKeepsEntry(e: Entry, now: int)
    requires e.Valid() && e.Ready(now)
    ensures e.Launched(now).Valid()
  {
  }

  /** What a RunDue at now makes of an entry. */
  ghost predicate AfterRunDue(e: Entry, e': Entry, now: int) {
    if e.nextDue.Some? && e.nextDue.value <= now && !e.running then
      && e'.running && e'.launches == e.launches + [now]
      && e'.nextDue == (if e.interval > 0 then Some(now + e.interval) else None)
      && e'.interval == e.interval && e'.firstDue == e.firstDue
    else
      e' == e
  }

  type Jobs = map<string, Entry>

  ghost function Dues(jobs: Jobs): set<int> {
    set n | n in jobs && jobs[n].nextDue.Some? :: jobs[n].nextDue.value
  }

  /** RunDue as one step: every ready entry is launched, the others stay. */
  function AllLaunched(jobs: Jobs, now: int): Jobs {
    map n | n in jobs :: if jobs[n].Ready(now) then jobs[n].Launched(now) else jobs[n]
  }

  lemma AllLaunchedAsDue(jobs: Jobs, now: int)
    ensures AllLaunched(jobs, now).Keys == jobs.Keys
    ensures forall n | n in jobs :: AfterRunDue(jobs[n], AllLaunched(jobs, now)[n], now)
  {
  }

  class Scheduler {
    var jobs: Jobs
    var stopped: bool
    var wake: bool  // the one-place wake channel is full

    ghost predicate Valid() reads this {
      forall n | n in jobs :: jobs[n].Valid()
    }

    constructor ()
      ensures Valid() && jobs == map[] && !stopped && !wake
    {
      jobs, stopped, wake := map[], false, false;
    }

    /** Schedule registers or replaces, and wakes the loop; a new entry starts
        out with no run of its own. */
    method Schedule(j: Job, now: int) returns (err: Option<ScheduleError>)
      requires Valid()
      modifies this
      ensures Valid() && stopped == old(stopped)
      ensures err == if j.name == "" then Some(NameRequired)
                     else if !j.hasFunc then Some(NoFunc)
                     else if j.interval <= 0 && j.at.None? then Some(NoSchedule)
                     else if old(stopped) then Some(Stopped)
                     else None
      ensures err.Some? ==> jobs == old(jobs) && wake == old(wake)
      ensures err.None? ==>
        var first := if j.at.Some? then j.at.value else now + j.interval;
        wake && jobs == old(jobs)[j.name := Entry(j.interval, Some(first), false, first, [])]
    {
      if j.name == "" {
        return Some(NameRequired);
      }
      if !j.hasFunc {
        return Some(NoFunc);
      }
      if j.interval <= 0 && j.at.None? {
        return Some(NoSchedule);
      }
      if stopped {
        return Some(Stopped);
      }
      var first := if j.at.None? then now + j.interval else j.at.value;
      jobs := jobs[j.name := Entry(j.interval, Some(first), false, first, [])];
      wake := true;
      return None;
    }

    method Unschedule(name: string) returns (ok: bool)
      requires Valid()
      modifies this
      ensures Valid() && stopped == old(stopped)
      ensures ok <==> name in old(jobs)
      ensures jobs == old(jobs) - {name} && wake == (old(wake) || ok)
    {
      ok := name in jobs;
      if ok {
        jobs := jobs - {name};
        wake := true;
      }
    }

    /** The earliest due time, skipping entries that have none. */
    method NextDue() returns (earliest: Option<int>)
      ensures IsEarliest(earliest, Dues(jobs))
    {
      earliest := None;
      var left := jobs.Keys;
      ghost var seen: Jobs := map[];
      while left != {}
        invariant seen.Keys + left == jobs.Keys && seen.Keys !! left
        invariant forall n | n in seen :: seen[n] == jobs[n]
        invariant IsEarliest(earliest, Dues(seen))
        decreases left
      {
        var n :| n in left;
        var e := jobs[n];
        DuesGrow(seen, n, e);
        seen := seen[n := e];
        left := left - {n};
        if e.nextDue.Some? && (earliest.None? || e.nextDue.value < earliest.value) {
          earliest := e.nextDue;
        }
      }
      assert seen == jobs;
    }

    /** Until the earliest due time, but at least a microsecond and at most a
        minute; a minute when nothing is due ever. */
    method NextSleep(now: int) returns (d: int)
      ensures exists next :: IsEarliest(next, Dues(jobs)) && d == SleepFor(next, now)
      ensures Dues(jobs) == {} ==> d == 60_000_000_000
      ensures forall due | IsEarliest(Some(due), Dues(jobs)) ::
        d == if due <= now then 1_000 else if due <= now + 60_000_000_000 then due - now else 60_000_000_000
    {
      var next := NextDue();
      d := SleepFor(next, now);
    }

    /** RunDue launches every entry that is due and not running, once, leaves
        all others alone, and returns how many it launched. What is launched is
        due again one interval from now, or never without an interval. */
    method RunDue(now: int) returns (launched: nat)
      requires Valid()
      modifies this`jobs
      ensures Valid()
      ensures jobs == AllLaunched(old(jobs), now)
      ensures launched == |set n | n in old(jobs) && old(jobs)[n].Ready(now)|
      ensures jobs.Keys == old(jobs).Keys
      ensures forall n | n in jobs :: AfterRunDue(old(jobs)[n], jobs[n], now)
    {
      var due := set n | n in jobs && jobs[n].Ready(now);
      ghost var before, ready := jobs, due;
      launched := 0;
      while due != {}
        invariant due <= ready && launched + |due| == |ready|
        invariant jobs.Keys == before.Keys
        invariant forall n | n in jobs ::
          jobs[n] == (if n in ready && n !in due then before[n].Launched(now) else before[n])
        decreases due
      {
        var n :| n in due;
        due := due - {n};
        if !jobs[n].running {
          jobs := jobs[n := jobs[n].Launched(now)];
          launched := launched + 1;
        }
      }
      assert jobs == AllLaunched(before, now);
      AllLaunchedAsDue(before, now);
      forall n | n in jobs && before[n].Ready(now)
        ensures jobs[n].Valid()
      {
        LaunchKeepsEntry(before[n], now);
      }
    }

    /** The end of a run of a registered entry: its deferred store. */
    method FinishRun(n: string)
      requires Valid() && n in jobs
      modifies this`jobs
      ensures Valid() && jobs == old(jobs)[n := old(jobs)[n].(running := false)]
    {
      jobs := jobs[n := jobs[n].(running := false)];
    }

    /** Stop makes every later Schedule fail. */
    method MarkStopped()
      requires Valid()
      modifies this`stopped
      ensures Valid() && stopped
    {
      stopped := true;
    }
  }

  lemma DuesGrow(jobs: Jobs, n: string, e: Entry)
    requires n !in jobs
    ensures Dues(jobs[n := e]) == Dues(jobs) + (if e.nextDue.Some? then {e.nextDue.value} else {})
  {
    var longer := jobs[n := e];
    assert forall m | m in jobs :: longer[m] == jobs[m];
    forall d
      ensures d in Dues(longer) <==> d in Dues(jobs) || (e.nextDue.Some? && d == e.nextDue.value)
    {
      if d in Dues(jobs) {
        var m :| m in jobs && jobs[m].nextDue == Some(d);
        assert longer[m].nextDue == Some(d);
      }
      if e.nextDue == Some(d) {
        assert longer[n].nextDue == Some(d);
      }
    }
  }

  /** In any history of calls, the launches of a registered entry are spaced:
      the k-th comes at firstDue + k * interval or later, there are at most
      1 + (until - firstDue) / interval of them up to an instant, and a job
      without interval is launched at most once. */
  lemma EntryLaunchesAreSpaced(e: Entry, until: int, k: nat)
    requires e.Valid() && k < |e.launches| && forall i | 0 <= i < |e.launches| :: e.launches[i] <= until
    ensures e.launches[k] >= e.firstDue + k * e.interval
    ensures if e.interval > 0 then |e.launches| <= 1 + (until - e.firstDue) / e.interval else |e.launches| == 1
  {
    KthLaunch(e.launches, e.firstDue, e.interval, k);
    if e.interval > 0 {
      LaunchesBounded(e.launches, e.firstDue, e.interval, until);
    }
  }
}
