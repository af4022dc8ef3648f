// internal/scheduler: the Start loop in time.
//
// The timer is ideal: code takes no time, and a sleep lasts exactly as long
// as nextSleep said unless a wake signal ends it. Schedule, Unschedule and the
// ends of runs may come at any instant, and between any two steps of the loop.

module SchedulerLoop {
  import opened Common
  import opened Scheduler

  datatype Loop =
    | AboutToPoll
    | AboutToSleep          // RunDue has returned
    | Sleeping(until: int)

  datatype State = State(
    now: int,
    jobs: Jobs,
    idleSince: map<string, int>,  // history: when the entry was registered or its last run ended
    wake: bool,
    loop: Loop)

  datatype Event =
    | Advance(to: int)
    | Poll
    | ComputeSleep
    | WakeBySignal
    | WakeByTimer
    | Register(name: string, interval: int, at: Option<int>)
    | Remove(name: string)
    | RunEnds(name: string)
    | OtherRunDue  // RunDue called by someone else

  /** What NextDue returns: it is determined by its specification. */
  ghost function Earliest(jobs: Jobs): (r: Option<int>)
    ensures IsEarliest(r, Dues(jobs))
  {
    EarliestExists(jobs);
    var r :| IsEarliest(r, Dues(jobs));
    r
  }

  lemma {:induction false} EarliestExists(jobs: Jobs)
    ensures exists r :: IsEarliest(r, Dues(jobs))
    decreases |jobs|
  {
    if jobs == map[] {
      assert IsEarliest(None, Dues(jobs));
    } else {
      var n :| n in jobs;
      var others := jobs - {n};
      assert others.Keys == jobs.Keys - {n};
      EarliestExists(others);
      var r :| IsEarliest(r, Dues(others));
      DuesGrow(others, n, jobs[n]);
      assert others[n := jobs[n]] == jobs;
      var due := jobs[n].nextDue;
      assert IsEarliest(if due.Some? && (r.None? || due.value < r.value) then due else r, Dues(jobs));
    }
  }

  ghost predicate Enabled(s: State, e: Event) {
    match e
    case Advance(to) => s.loop.Sleeping? && !s.wake && s.now < to <= s.loop.until
    case Poll => s.loop.AboutToPoll?
    case ComputeSleep => s.loop.AboutToSleep?
    case WakeBySignal => s.loop.Sleeping? && s.wake
    case WakeByTimer => s.loop.Sleeping? && s.now >= s.loop.until
    case Register(name, interval, at) => name != "" && (interval > 0 || at.Some?)
    case Remove(name) => name in s.jobs
    case RunEnds(name) => name in s.jobs && s.jobs[name].running
    case OtherRunDue => true
  }

  ghost function Step(s: State, e: Event): State {
    match e
    case Advance(to) => s.(now := to)
    case Poll => s.(jobs := AllLaunched(s.jobs, s.now), loop := AboutToSleep)
    case ComputeSleep => s.(loop := Sleeping(s.now + SleepFor(Earliest(s.jobs), s.now)))
    case WakeBySignal => s.(wake := false, loop := AboutToPoll)
    case WakeByTimer => s.(loop := AboutToPoll)
    case Register(name, interval, at) =>
      var first := if at.Some? then at.value else s.now + interval;
      s.(jobs := s.jobs[name := Entry(interval, Some(first), false, first, [])],
         idleSince := s.idleSince[name := s.now],
         wake := true)
    case Remove(name) => s.(jobs := s.jobs - {name}, idleSince := s.idleSince - {name}, wake := true)
    case RunEnds(name) =>
      if name !in s.jobs then s
      else s.(jobs := s.jobs[name := s.jobs[name].(running := false)], idleSince := s.idleSince[name := s.now])
    case OtherRunDue => s.(jobs := AllLaunched(s.jobs, s.now))
  }

  ghost predicate Init(s: State) {
    s.jobs == map[] && s.idleSince == map[] && s.loop == AboutToPoll
  }

  ghost predicate Next(s: State, s': State) {
    exists e :: Enabled(s, e) && s' == Step(s, e)
  }

  // ---------- Lateness ----------

  /** The first instant at which an idle entry is both due and not running. */
  function ReadyAt(due: int, idleSince: int): int { Max(due, idleSince) }

  /** No idle entry has been ready for more than a microsecond. */
  ghost predicate OnTime(s: State) {
    forall n | n in s.jobs && n in s.idleSince && s.jobs[n].nextDue.Some? && !s.jobs[n].running ::
      s.now <= ReadyAt(s.jobs[n].nextDue.value, s.idleSince[n]) + MICROSECOND
  }

  /** The sleep ends soon enough for this entry, even if its run ends meanwhile. */
  ghost predicate SleepsShort(s: State, until: int, e: Entry, idleSince: int) {
    e.nextDue.Some? ==>
      until <= (if e.running then Max(e.nextDue.value, s.now) else ReadyAt(e.nextDue.value, idleSince)) + MICROSECOND
  }

  ghost predicate LoopOk(s: State) {
    match s.loop
    case AboutToPoll => true
    case AboutToSleep =>
      // whatever is ready after a poll has only just become so
      forall n | n in s.jobs && n in s.idleSince && s.jobs[n].Ready(s.now) :: s.idleSince[n] == s.now
    case Sleeping(until) =>
      !s.wake ==>
        && s.now <= until
        && forall n | n in s.jobs && n in s.idleSince :: SleepsShort(s, until, s.jobs[n], s.idleSince[n])
  }

  ghost predicate Inv(s: State) {
    && OnTime(s)
    && LoopOk(s)
    && s.idleSince.Keys == s.jobs.Keys
    && (forall n | n in s.idleSince :: s.idleSince[n] <= s.now)
    && (forall n | n in s.jobs :: s.jobs[n].Valid())
  }

  lemma LaunchingKeepsEntries(jobs: Jobs, now: int)
    requires forall n | n in jobs :: jobs[n].Valid()
    ensures forall n | n in AllLaunched(jobs, now) :: AllLaunched(jobs, now)[n].Valid()
  {
    forall n | n in jobs && jobs[n].Ready(now)
      ensures jobs[n].Launched(now).Valid()
    {
      LaunchKeepsEntry(jobs[n], now);
    }
  }

  lemma ComputeSleepKeepsInv(s: State)
    requires Inv(s) && Enabled(s, ComputeSleep)
    ensures Inv(Step(s, ComputeSleep))
  {
    var until := Step(s, ComputeSleep).loop.until;
    forall n | n in s.jobs && n in s.idleSince
      ensures SleepsShort(s, until, s.jobs[n], s.idleSince[n])
    {
      if s.jobs[n].nextDue.Some? {
        assert s.jobs[n].nextDue.value in Dues(s.jobs);
      }
    }
  }

  /** A launch during a sleep puts the next due time after the present. */
  lemma LaunchSleepsShort(s: State, until: int, e: Entry, idleSince: int)
    requires SleepsShort(s, until, e, idleSince) && idleSince <= s.now
    ensures SleepsShort(s, until, if e.Ready(s.now) then e.Launched(s.now) else e, idleSince)
  {
  }

  lemma RunDueKeepsLoop(s: State, s': State)
    requires Inv(s) && s' == s.(jobs := AllLaunched(s.jobs, s.now))
    ensures LoopOk(s') && OnTime(s')
    ensures forall n | n in s'.jobs :: !s'.jobs[n].Ready(s.now)
  {
    if s.loop.Sleeping? && !s.wake {
      forall n | n in s.jobs && n in s.idleSince
        ensures SleepsShort(s', s.loop.until, s'.jobs[n], s'.idleSince[n])
      {
        LaunchSleepsShort(s, s.loop.until, s.jobs[n], s.idleSince[n]);
      }
    }
  }

  lemma RunDueKeepsInv(s: State, e: Event)
    requires Inv(s) && Enabled(s, e) && (e.Poll? || e.OtherRunDue?)
    ensures Inv(Step(s, e))
  {
    LaunchingKeepsEntries(s.jobs, s.now);
    RunDueKeepsLoop(s, s.(jobs := AllLaunched(s.jobs, s.now)));
  }

  lemma RunEndKeepsInv(s: State, n: string)
    requires Inv(s) && Enabled(s, RunEnds(n))
    ensures Inv(Step(s, RunEnds(n)))
  {
  }

  lemma RegisterKeepsInv(s: State, e: Event)
    requires Inv(s) && Enabled(s, e) && (e.Register? || e.Remove?)
    ensures Inv(Step(s, e))
  {
  }

  lemma TimeKeepsInv(s: State, e: Event)
    requires Inv(s) && Enabled(s, e) && (e.Advance? || e.WakeBySignal? || e.WakeByTimer?)
    ensures Inv(Step(s, e))
  {
    if e.Advance? {
      forall n | n in s.jobs && n in s.idleSince
        ensures SleepsShort(s, s.loop.until, s.jobs[n], s.idleSince[n])
      {
      }
    }
  }

  lemma StepKeepsInv(s: State, e: Event)
    requires Inv(s) && Enabled(s, e)
    ensures Inv(Step(s, e))
  {
    match e
    case Poll => RunDueKeepsInv(s, e);
    case OtherRunDue => RunDueKeepsInv(s, e);
    case ComputeSleep => ComputeSleepKeepsInv(s);
    case RunEnds(n) => RunEndKeepsInv(s, n);
    case Register(_, _, _) => RegisterKeepsInv(s, e);
    case Remove(_) => RegisterKeepsInv(s, e);
    case Advance(_) => TimeKeepsInv(s, e);
    case WakeBySignal => TimeKeepsInv(s, e);
    case WakeByTimer => TimeKeepsInv(s, e);
  }

  lemma RunsKeepInv(run: seq<State>)
    requires Behavior(Init, Next, run)
    ensures forall i | 0 <= i < |run| :: Inv(run[i])
  {
    forall s, s' | Inv(s) && Next(s, s')
      ensures Inv(s')
    {
      var e :| Enabled(s, e) && s' == Step(s, e);
      StepKeepsInv(s, e);
    }
    Invariance(Init, Next, Inv, run);
  }

  /** The lateness bound, for any run of registrations, removals and run ends:
      an entry that is still waiting has been due and idle for at most a
      microsecond, and the next RunDue launches it. */
  lemma LaunchesAreOnTime(run: seq<State>, i: nat, n: string)
    requires Behavior(Init, Next, run) && i < |run|
    requires n in run[i].jobs && run[i].jobs[n].nextDue.Some? && !run[i].jobs[n].running
    ensures n in run[i].idleSince
    ensures run[i].now <= ReadyAt(run[i].jobs[n].nextDue.value, run[i].idleSince[n]) + MICROSECOND
    ensures ReadyAt(run[i].jobs[n].nextDue.value, run[i].idleSince[n]) <= run[i].now ==>
      Step(run[i], Poll).jobs[n] == run[i].jobs[n].Launched(run[i].now)
  {
    RunsKeepInv(run);
    assert Inv(run[i]);
  }

  /** A step other than scheduling or unscheduling this name. */
  ghost predicate StepApartFrom(n: string, s: State, s': State) {
    exists e: Event :: Enabled(s, e) && s' == Step(s, e) && !(e.Register? && e.name == n) && !(e.Remove? && e.name == n)
  }

  /** Since state s the entry has been launched next at an instant that is no
      earlier than it was ready and at most a microsecond later. */
  ghost predicate NextLaunchOnTime(n: string, s: State, s': State)
    requires n in s.jobs && n in s.idleSince && s.jobs[n].nextDue.Some?
    requires n in s'.jobs
  {
    var before, after := s.jobs[n].launches, s'.jobs[n].launches;
    var ready := ReadyAt(s.jobs[n].nextDue.value, s.idleSince[n]);
    before < after && ready <= after[|before|] <= ready + MICROSECOND
  }

  /** What one such step does to the entry. */
  lemma EntryStep(n: string, s: State, e: Event)
    requires n in s.jobs && n in s.idleSince && Enabled(s, e)
    requires !(e.Register? && e.name == n) && !(e.Remove? && e.name == n)
    ensures var s' := Step(s, e);
            && n in s'.jobs && n in s'.idleSince
            && (|| (s'.jobs[n] == s.jobs[n] && s'.idleSince[n] == s.idleSince[n])
                || (s.jobs[n].Ready(s.now) && s'.jobs[n] == s.jobs[n].Launched(s.now))
                || (e == RunEnds(n) && s.jobs[n].running && s'.idleSince[n] == s.now
                    && s'.jobs[n] == Entry(s.jobs[n].interval, s.jobs[n].nextDue, false,
                                           s.jobs[n].firstDue, s.jobs[n].launches)))
  {
  }

  ghost predicate Waiting(s: State, n: string) {
    n in s.jobs && n in s.idleSince && s.jobs[n].nextDue.Some? && !s.jobs[n].running
  }

  /** Since s the entry has stayed as it was, or has been launched on time. */
  ghost predicate WaitsOrLaunched(n: string, s: State, s': State)
    requires Waiting(s, n)
  {
    && n in s'.jobs && n in s'.idleSince
    && ((s'.jobs[n] == s.jobs[n] && s'.idleSince[n] == s.idleSince[n]) || NextLaunchOnTime(n, s, s'))
  }

  lemma LaunchIsOnTime(n: string, s0: State, s: State, s': State)
    requires Waiting(s0, n) && n in s.jobs && n in s.idleSince && Inv(s)
    requires s.jobs[n] == s0.jobs[n] && s.idleSince[n] == s0.idleSince[n]
    requires n in s'.jobs && s.jobs[n].Ready(s.now) && s'.jobs[n] == s.jobs[n].Launched(s.now)
    ensures NextLaunchOnTime(n, s0, s')
  {
  }

  lemma WaitsOneStep(n: string, s0: State, s: State, s': State)
    requires Waiting(s0, n) && WaitsOrLaunched(n, s0, s) && Inv(s) && StepApartFrom(n, s, s')
    ensures WaitsOrLaunched(n, s0, s')
  {
    var e: Event :| Enabled(s, e) && s' == Step(s, e) && !(e.Register? && e.name == n) && !(e.Remove? && e.name == n);
    EntryStep(n, s, e);
    if !NextLaunchOnTime(n, s0, s) && s.jobs[n] != s'.jobs[n] {
      LaunchIsOnTime(n, s0, s, s');
    }
  }

  lemma WaitsUntilLaunched(run: seq<State>, i: nat, j: nat, n: string)
    requires Behavior(Init, Next, run) && i <= j < |run| && Waiting(run[i], n)
    requires forall k | i <= k < j :: StepApartFrom(n, run[k], run[k + 1])
    ensures WaitsOrLaunched(n, run[i], run[j])
  {
    RunsKeepInv(run);
    var s0, tail := run[i], run[i..j + 1];
    var init, next, inv := s => s == s0, (s, s') => Inv(s) && StepApartFrom(n, s, s'), s => WaitsOrLaunched(n, s0, s);
    forall s, s' | inv(s) && next(s, s')
      ensures inv(s')
    {
      WaitsOneStep(n, s0, s, s');
    }
    forall k | 0 <= k < |tail| - 1
      ensures next(tail[k], tail[k + 1])
    {
      assert StepApartFrom(n, run[i + k], run[i + k + 1]);
    }
    Invariance(init, next, inv, tail);
    assert inv(tail[j - i]);
  }

  /** The real-time guarantee: once a waiting entry has been due and idle for
      more than a microsecond, it has been launched, and that was within the
      microsecond after it became ready. */
  lemma ReadyEntriesAreLaunched(run: seq<State>, i: nat, j: nat, n: string)
    requires Behavior(Init, Next, run) && i <= j < |run| && Waiting(run[i], n)
    requires forall k | i <= k < j :: StepApartFrom(n, run[k], run[k + 1])
    requires run[j].now > ReadyAt(run[i].jobs[n].nextDue.value, run[i].idleSince[n]) + MICROSECOND
    ensures n in run[j].jobs && NextLaunchOnTime(n, run[i], run[j])
  {
    WaitsUntilLaunched(run, i, j, n);
    RunsKeepInv(run);
    assert Inv(run[j]);
  }

  /** The upper half of the spacing: an entry that is idle again when its
      interval is over is launched then, at most a microsecond late; and a new
      entry is launched that soon after its first due time. */
  lemma NextLaunchIsAnIntervalLater(run: seq<State>, i: nat, j: nat, n: string)
    requires Behavior(Init, Next, run) && i <= j < |run|
    requires n in run[i].jobs && n in run[i].idleSince && !run[i].jobs[n].running
    requires forall k | i <= k < j :: StepApartFrom(n, run[k], run[k + 1])
    ensures var e := run[i].jobs[n];
            e.launches != [] && e.interval > 0 ==>
              var then' := e.launches[|e.launches| - 1] + e.interval;
              run[i].idleSince[n] <= then' && run[j].now > then' + MICROSECOND ==>
                LaunchedWithin(run[i], run[j], n, then', then' + MICROSECOND)
    ensures var e := run[i].jobs[n];
            e.launches == [] && run[i].idleSince[n] <= e.firstDue && run[j].now > e.firstDue + MICROSECOND ==>
              LaunchedWithin(run[i], run[j], n, e.firstDue, e.firstDue + MICROSECOND)
  {
    RunsKeepInv(run);
    assert Inv(run[i]);
    var e := run[i].jobs[n];
    assert e.Valid();
    if e.nextDue.Some? && run[j].now > ReadyAt(e.nextDue.value, run[i].idleSince[n]) + MICROSECOND {
      ReadyEntriesAreLaunched(run, i, j, n);
    }
  }

  /** A job is launched first at the instant it was scheduled for, or one interval
      after it was scheduled, at most a microsecond late. */
  lemma FirstLaunchIsOnTime(run: seq<State>, i: nat, j: nat, n: string, interval: int, at: Option<int>)
    requires Behavior(Init, Next, run) && i < j < |run|
    requires Enabled(run[i], Register(n, interval, at)) && run[i + 1] == Step(run[i], Register(n, interval, at))
    requires forall k | i + 1 <= k < j :: StepApartFrom(n, run[k], run[k + 1])
    ensures var first := if at.Some? then at.value else run[i].now + interval;
            run[i].now <= first && run[j].now > first + MICROSECOND ==>
              && n in run[j].jobs && run[j].jobs[n].launches != []
              && first <= run[j].jobs[n].launches[0] <= first + MICROSECOND
  {
    NextLaunchIsAnIntervalLater(run, i + 1, j, n);
  }

  /** Whoever calls it, RunDue does to every entry what it does for one caller, and
      neither wakes the loop nor ends its sleep. */
  lemma AnyRunDueLaunches(s: State, n: string)
    requires n in s.jobs
    ensures var s' := Step(s, OtherRunDue);
            && s'.jobs.Keys == s.jobs.Keys && AfterRunDue(s.jobs[n], s'.jobs[n], s.now)
            && s' == s.(jobs := s'.jobs)
    ensures Step(s, Poll).jobs == Step(s, OtherRunDue).jobs
  {
    AllLaunchedAsDue(s.jobs, s.now);
  }

  lemma AbsentStays(n: string, s: State, s': State)
    requires n !in s.jobs && StepApartFrom(n, s, s')
    ensures n !in s'.jobs
  {
    var e: Event :| Enabled(s, e) && s' == Step(s, e) && !(e.Register? && e.name == n) && !(e.Remove? && e.name == n);
  }

  lemma RemovedIsAbsent(run: seq<State>, i: nat, n: string)
    requires i + 1 < |run| && Enabled(run[i], Remove(n)) && run[i + 1] == Step(run[i], Remove(n))
    ensures n !in run[i + 1].jobs
  {
  }

  /** An unscheduled job stays away until it is scheduled again. */
  lemma RemovedStaysAway(run: seq<State>, i: nat, j: nat, n: string)
    requires Behavior(Init, Next, run) && i < j < |run|
    requires Enabled(run[i], Remove(n)) && run[i + 1] == Step(run[i], Remove(n))
    requires forall k | i + 1 <= k < j :: StepApartFrom(n, run[k], run[k + 1])
    ensures n !in run[j].jobs
  {
    RemovedIsAbsent(run, i, n);
    var s1, tail := run[i + 1], run[i + 1..j + 1];
    var init, next, inv := s => s == s1, (s, s') => StepApartFrom(n, s, s'), (s: State) => n !in s.jobs;
    forall s, s' | inv(s) && next(s, s')
      ensures inv(s')
    {
      AbsentStays(n, s, s');
    }
    forall k | 0 <= k < |tail| - 1
      ensures next(tail[k], tail[k + 1])
    {
      assert StepApartFrom(n, run[i + 1 + k], run[i + 1 + k + 1]);
    }
    Invariance(init, next, inv, tail);
    assert inv(tail[j - i - 1]);
  }

  /** The next launch of the entry after state s is within these instants. */
  ghost predicate LaunchedWithin(s: State, s': State, n: string, from: int, to: int)
    requires n in s.jobs
  {
    && n in s'.jobs && s.jobs[n].launches < s'.jobs[n].launches
    && from <= s'.jobs[n].launches[|s.jobs[n].launches|] <= to
  }

  /** A job without an interval is not launched again. */
  lemma OneShotIsNotLaunchedAgain(run: seq<State>, i: nat, n: string, now: int)
    requires Behavior(Init, Next, run) && i < |run|
    requires n in run[i].jobs && run[i].jobs[n].interval <= 0 && run[i].jobs[n].launches != []
    ensures run[i].jobs[n].nextDue.None? && !run[i].jobs[n].Ready(now)
  {
    RunsKeepInv(run);
    assert Inv(run[i]);
  }

  /** Time is never stuck short of a poll: when it cannot pass, the loop can
      move, and it then takes at most two steps to the next poll. */
  lemma LoopAlwaysMoves(s: State)
    ensures match s.loop
            case AboutToPoll => Enabled(s, Poll)
            case AboutToSleep =>
              Enabled(s, ComputeSleep) && s.now < Step(s, ComputeSleep).loop.until <= s.now + IDLE_TIMEOUT
            case Sleeping(until) => Enabled(s, WakeBySignal) || Enabled(s, WakeByTimer) || Enabled(s, Advance(until))
  {
  }

  /** Launch spacing over whole runs of the loop and any other RunDue callers. */
  lemma LoopLaunchesAreSpaced(run: seq<State>, i: nat, n: string, k: nat)
    requires Behavior(Init, Next, run) && i < |run|
    requires n in run[i].jobs && k < |run[i].jobs[n].launches|
    ensures var e := run[i].jobs[n];
            && e.launches[k] >= e.firstDue + k * e.interval
            && (e.interval <= 0 ==> |e.launches| == 1)
  {
    RunsKeepInv(run);
    assert Inv(run[i]);
    KthLaunch(run[i].jobs[n].launches, run[i].jobs[n].firstDue, run[i].jobs[n].interval, k);
  }

  lemma RunGrows(run: seq<State>, e: Event, s: State)
    requires Behavior(Init, Next, run) && Enabled(run[|run| - 1], e) && s == Step(run[|run| - 1], e)
    ensures Behavior(Init, Next, run + [s])
  {
    BehaviorGrows(Init, Next, run, s);
  }

  const FIRST := Entry(10, Some(0), false, 0, [])
  const BUSY := Entry(10, Some(10), true, 0, [0])

  lemma BusyIsDueAt10(jobs: Jobs)
    requires jobs == map["job" := BUSY]
    ensures Earliest(jobs) == Some(10)
  {
    assert jobs["job"].nextDue == Some(10);
    assert 10 in Dues(jobs);
  }

  /** A job with interval 10 is registered at 0 and launched there. */
  lemma JobStarts() returns (run: seq<State>)
    ensures Behavior(Init, Next, run)
    ensures run[|run| - 1] == State(0, map["job" := BUSY], map["job" := 0], true, AboutToSleep)
  {
    var s0 := State(0, map[], map[], false, AboutToPoll);
    var s1 := State(0, map["job" := FIRST], map["job" := 0], true, AboutToPoll);
    run := [s0];
    RunGrows(run, Register("job", 10, Some(0)), s1);
    run := run + [s1];
    assert FIRST.Launched(0) == BUSY;
    RunGrows(run, Poll, s1.(jobs := map["job" := BUSY], loop := AboutToSleep));
    run := run + [s1.(jobs := map["job" := BUSY], loop := AboutToSleep)];
  }

  /** It is still running when its next due time comes. */
  lemma JobOverruns() returns (run: seq<State>)
    ensures Behavior(Init, Next, run)
    ensures run[|run| - 1] == State(10, map["job" := BUSY], map["job" := 0], false, Sleeping(10))
  {
    run := JobStarts();
    var s2 := run[|run| - 1];
    BusyIsDueAt10(s2.jobs);
    RunGrows(run, ComputeSleep, s2.(loop := Sleeping(10)));
    run := run + [s2.(loop := Sleeping(10))];
    var s4 := s2.(wake := false, loop := AboutToPoll);
    RunGrows(run, WakeBySignal, s4);
    run := run + [s4];
    assert AllLaunched(s4.jobs, 0) == s4.jobs;
    RunGrows(run, Poll, s4.(loop := AboutToSleep));
    run := run + [s4.(loop := AboutToSleep)];
    RunGrows(run, ComputeSleep, s4.(loop := Sleeping(10)));
    run := run + [s4.(loop := Sleeping(10))];
    RunGrows(run, Advance(10), s4.(now := 10, loop := Sleeping(10)));
    run := run + [s4.(now := 10, loop := Sleeping(10))];
  }

  /** The loop polls in vain, and right after that poll the run ends. */
  lemma RunEndsAfterPoll() returns (run: seq<State>)
    ensures Behavior(Init, Next, run)
    ensures run[|run| - 1] == State(10, map["job" := BUSY.(running := false)], map["job" := 10],
                                    false, Sleeping(10 + MICROSECOND))
  {
    run := JobOverruns();
    var s7 := run[|run| - 1];
    RunGrows(run, WakeByTimer, s7.(loop := AboutToPoll));
    run := run + [s7.(loop := AboutToPoll)];
    assert AllLaunched(s7.jobs, 10) == s7.jobs;
    RunGrows(run, Poll, s7.(loop := AboutToSleep));
    run := run + [s7.(loop := AboutToSleep)];
    BusyIsDueAt10(s7.jobs);
    RunGrows(run, ComputeSleep, s7.(loop := Sleeping(10 + MICROSECOND)));
    run := run + [s7.(loop := Sleeping(10 + MICROSECOND))];
    var last := State(10, map["job" := BUSY.(running := false)], map["job" := 10], false, Sleeping(10 + MICROSECOND));
    RunGrows(run, RunEnds("job"), last);
    run := run + [last];
  }

  /** The bound is reached: here a ready entry has waited a whole microsecond. */
  lemma LatenessBoundIsTight() returns (run: seq<State>)
    ensures Behavior(Init, Next, run)
    ensures var s := run[|run| - 1];
            && "job" in s.jobs && "job" in s.idleSince && s.jobs["job"].Ready(s.now)
            && s.now == ReadyAt(s.jobs["job"].nextDue.value, s.idleSince["job"]) + MICROSECOND
  {
    run := RunEndsAfterPoll();
    var s := run[|run| - 1];
    RunGrows(run, Advance(10 + MICROSECOND), s.(now := 10 + MICROSECOND));
    run := run + [s.(now := 10 + MICROSECOND)];
  }
}
