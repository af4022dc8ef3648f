// internal/errgroup: when a nil result of Wait is stable.
//
// A Wait that has returned nil leaves the group's context canceled and no error
// recorded. Calls that were inside Go at that time, and calls made afterwards,
// decide what a later Wait returns.

module ErrGroupWait {
  import opened Common
  import opened ErrGroup
  import Limiter

  /** A group as a Wait that returns nil leaves it. */
  ghost predicate Succeeded(s: System, g: Gid) {
    g in s.groups && s.groups[g].canceled && s.groups[g].err.None?
  }

  ghost predicate Idle(s: System, g: Gid) { forall t | t in s.workers :: s.workers[t].g != g }

  /** The events lead from s through these states. */
  ghost predicate Path(s: System, events: seq<Event>, path: seq<System>) {
    && |path| == |events| + 1 && path[0] == s
    && forall k | 0 <= k < |events| :: Enabled(path[k], events[k]) && path[k + 1] == Step(path[k], events[k])
  }

  /** What spoils a success: a call of Go, a Go woken in Acquire that finds no
      permit free, or a function of the group that returns an error. */
  ghost predicate Spoils(s: System, e: Event, g: Gid) {
    || (e.Go? && e.g == g)
    || (e.Resume? && e.t in s.workers && s.workers[e.t].g == g && s.sem.inFlight + 1 > s.sem.capacity)
    || (e.FnReturns? && e.err.Some? && e.t in s.workers && s.workers[e.t].g == g)
  }

  /** A worker of the group is about to record an error. */
  ghost predicate ErrorPending(s: System, g: Gid) {
    exists t | t in s.workers :: s.workers[t].g == g && (s.workers[t].Refused? || s.workers[t].Erred?)
  }

  /** An error is on its way at first, or one of the first n events spoils the
      success. */
  ghost predicate Spoilt(events: seq<Event>, path: seq<System>, g: Gid, n: nat)
    requires n <= |events| < |path|
  {
    ErrorPending(path[0], g) || exists k | 0 <= k < n :: Spoils(path[k], events[k], g)
  }

  /** The group's state as far as its spoiling decides it. */
  ghost predicate Tells(s: System, g: Gid, spoilt: bool) {
    && g in s.groups && s.groups[g].canceled
    && (if spoilt then s.groups[g].err.Some? || ErrorPending(s, g)
        else s.groups[g].err.None? && !ErrorPending(s, g))
  }

  lemma StaysCanceled(s: System, e: Event, g: Gid)
    requires Enabled(s, e) && g in s.groups && s.groups[g].canceled
    ensures var s' := Step(s, e); g in s'.groups && s'.groups[g].canceled
  {
  }

  /** With the context canceled a woken Go either gets a permit or fails. */
  lemma ResumeDecides(s: System, e: Event, g: Gid)
    requires CallsMatch(s) && Enabled(s, e) && e.Resume? && s.workers[e.t].g == g
    requires g in s.groups && s.groups[g].canceled
    ensures Step(s, e).workers ==
            s.workers[e.t := if s.sem.inFlight + 1 > s.sem.capacity then Refused(g) else Holding(g)]
    ensures Step(s, e).groups == s.groups
  {
    assert s.sem.calls[e.t].n == 1;
  }

  lemma UnspoiltStep(s: System, e: Event, g: Gid)
    requires CallsMatch(s) && Tells(s, g, false) && Enabled(s, e) && !Spoils(s, e, g)
    ensures Tells(Step(s, e), g, false)
  {
    StaysCanceled(s, e, g);
    if e.Resume? && s.workers[e.t].g == g {
      ResumeDecides(s, e, g);
    }
    assert e.RecordErr? ==> s.workers[e.t].g != g;
  }

  lemma SpoilingStep(s: System, e: Event, g: Gid)
    requires CallsMatch(s) && Tells(s, g, false) && Enabled(s, e) && Spoils(s, e, g)
    ensures Tells(Step(s, e), g, true)
  {
    StaysCanceled(s, e, g);
    var s' := Step(s, e);
    if e.Resume? {
      ResumeDecides(s, e, g);
    }
    assert e.t in s'.workers && s'.workers[e.t].g == g;
  }

  lemma SpoiltStep(s: System, e: Event, g: Gid)
    requires Tells(s, g, true) && Enabled(s, e)
    ensures Tells(Step(s, e), g, true)
  {
    StaysCanceled(s, e, g);
    if s.groups[g].err.None? {
      var t :| t in s.workers && s.workers[t].g == g && (s.workers[t].Refused? || s.workers[t].Erred?);
      assert e == RecordErr(t) || (t in Step(s, e).workers && Step(s, e).workers[t] == s.workers[t]);
    }
  }

  lemma {:induction false} SpoilingTells(s: System, events: seq<Event>, path: seq<System>, g: Gid, n: nat)
    requires Inv(s) && Succeeded(s, g) && Path(s, events, path) && n <= |events|
    ensures Inv(path[n]) && Tells(path[n], g, Spoilt(events, path, g, n))
  {
    if n > 0 {
      SpoilingTells(s, events, path, g, n - 1);
      var before, e := path[n - 1], events[n - 1];
      assert path[n - 1 + 1] == Step(before, e);
      StepKeepsInv(before, e);
      if Spoilt(events, path, g, n - 1) {
        SpoiltStep(before, e, g);
      } else if Spoils(before, e, g) {
        SpoilingStep(before, e, g);
      } else {
        UnspoiltStep(before, e, g);
      }
    }
  }

  /** What a Wait that returns next for this group returns. */
  ghost function NextResult(s: System, w: Tid): Result
    requires Enabled(s, WaitReturns(w))
  {
    var results := Step(s, WaitReturns(w)).results;
    results[|results| - 1]
  }

  /** After a Wait has returned nil, a later one returns nil as long as nothing
      spoils that; and once the calls made have come to their end, it returns
      nil exactly in that case. */
  lemma NilIsStableIffUnspoilt(
      run: seq<System>, i: nat, events: seq<Event>, path: seq<System>, g: Gid, w: Tid)
    requires Behavior(Init, Next, run) && i < |run| && Succeeded(run[i], g)
    requires Path(run[i], events, path)
    requires Enabled(path[|events|], WaitReturns(w)) && path[|events|].waiters[w] == g
    ensures var result := NextResult(path[|events|], w);
            && result.g == g
            && (!Spoilt(events, path, g, |events|) ==> result.err.None?)
            && (Idle(path[|events|], g) ==> (result.err.None? <==> !Spoilt(events, path, g, |events|)))
  {
    RunsKeepInv(run);
    SpoilingTells(run[i], events, path, g, |events|);
  }

  /** A Go on such a group never starts its function: it is refused at once, and
      once it has recorded that, Wait returns an error from then on. */
  lemma GoSpoilsSuccess(run: seq<System>, i: nat, t: Tid, g: Gid, refused: bool, canceled: bool)
    requires Behavior(Init, Next, run) && i < |run| && Succeeded(run[i], g)
    requires Enabled(run[i], Event.Go(t, g, refused, canceled))
    ensures var s := Step(run[i], Event.Go(t, g, refused, canceled));
            && s.workers == run[i].workers[t := Refused(g)]
            && Enabled(s, RecordErr(t))
            && Step(s, RecordErr(t)).groups[g].err == Some(ACQUIRE_FAILED)
  {
    RunsKeepInv(run);
    assert Limiter.Inv(run[i].sem);
  }

  // ---------- When calls already made can still spoil it ----------

  /** The worker has come to the end of its function without an error. */
  ghost predicate Safe(t: Worker) { t.Releasing? || t.Broadcasting? || t.Released? }

  ghost predicate AllSafe(s: System, g: Gid) { forall t | t in s.workers && s.workers[t].g == g :: Safe(s.workers[t]) }

  /** A step other than a call of Go or TryGo on this group. */
  ghost predicate NextWithoutCall(g: Gid, s: System, s': System) {
    exists e: Event :: Enabled(s, e) && s' == Step(s, e) && !((e.Go? || e.TryGo?) && e.g == g)
  }

  ghost predicate Continuation(g: Gid, s: System, path: seq<System>) {
    && path != [] && path[0] == s
    && forall k | 0 <= k < |path| - 1 :: NextWithoutCall(g, path[k], path[k + 1])
  }

  ghost predicate Failed(s: System, g: Gid) { g in s.groups && s.groups[g].err.Some? }

  ghost predicate CanFail(s: System, g: Gid) {
    exists path :: Continuation(g, s, path) && Failed(path[|path| - 1], g)
  }

  lemma SafeStep(s: System, e: Event, g: Gid)
    requires Enabled(s, e) && !((e.Go? || e.TryGo?) && e.g == g)
    requires Succeeded(s, g) && AllSafe(s, g)
    ensures Succeeded(Step(s, e), g) && AllSafe(Step(s, e), g)
  {
    StaysCanceled(s, e, g);
  }

  lemma {:induction false} SafeAlongPath(g: Gid, path: seq<System>, k: nat)
    requires k < |path| && Succeeded(path[0], g) && AllSafe(path[0], g)
    requires forall x | 0 <= x < |path| - 1 :: NextWithoutCall(g, path[x], path[x + 1])
    ensures Succeeded(path[k], g) && AllSafe(path[k], g)
  {
    if k > 0 {
      SafeAlongPath(g, path, k - 1);
      assert NextWithoutCall(g, path[k - 1], path[k - 1 + 1]);
      var e: Event :|
        Enabled(path[k - 1], e) && path[k] == Step(path[k - 1], e) && !((e.Go? || e.TryGo?) && e.g == g);
      SafeStep(path[k - 1], e, g);
    }
  }

  /** The steps that a worker still has to take before it records an error. */
  ghost function StepsToError(s: System, t: Tid): nat
    requires t in s.workers
  {
    match s.workers[t]
    case Waiting(_) => if t in s.sem.calls && s.sem.calls[t].Asleep? then 5 else 4
    case Holding(_) => 3
    case Running(_) => 2
    case _ => 1
  }

  /** An event brings this worker closer to recording an error. */
  ghost predicate TowardsError(s: System, e: Event, t: Tid, g: Gid)
    requires t in s.workers
  {
    && Enabled(s, e) && !e.Go? && !e.TryGo?
    && var s' := Step(s, e);
       || Failed(s', g)
       || (Succeeded(s', g) && Unsafe(s', t, g) && StepsToError(s', t) < StepsToError(s, t))
  }

  ghost predicate Unsafe(s: System, t: Tid, g: Gid) {
    t in s.workers && s.workers[t].g == g && !Safe(s.workers[t])
  }

  lemma WaiterTowardsError(s: System, t: Tid, g: Gid) returns (e: Event)
    requires CallsMatch(s) && Succeeded(s, g) && t in s.workers && s.workers[t] == Waiting(g)
    ensures TowardsError(s, e, t, g)
  {
    if s.sem.calls[t].Asleep? {
      e := Event.Wakeup;
    } else {
      e := Resume(t, true);
      ResumeDecides(s, e, g);
    }
  }

  lemma RunnerTowardsError(s: System, t: Tid, g: Gid)
    requires Succeeded(s, g) && t in s.workers
    ensures s.workers[t] == Holding(g) ==> TowardsError(s, Spawn(t), t, g)
    ensures s.workers[t] == Running(g) ==> TowardsError(s, FnReturns(t, Some(1)), t, g)
  {
  }

  lemma RecorderTowardsError(s: System, t: Tid, g: Gid)
    requires Succeeded(s, g) && Unsafe(s, t, g) && (s.workers[t].Refused? || s.workers[t].Erred?)
    ensures TowardsError(s, RecordErr(t), t, g)
  {
  }

  /** The next step of a worker on the way to an error. */
  lemma StepToError(s: System, t: Tid, g: Gid) returns (e: Event)
    requires CallsMatch(s) && Succeeded(s, g) && Unsafe(s, t, g)
    ensures TowardsError(s, e, t, g)
  {
    match s.workers[t]
    case Waiting(_) => e := WaiterTowardsError(s, t, g);
    case Holding(_) =>
      e := Spawn(t);
      RunnerTowardsError(s, t, g);
    case Running(_) =>
      e := FnReturns(t, Some(1));
      RunnerTowardsError(s, t, g);
    case _ =>
      e := RecordErr(t);
      RecorderTowardsError(s, t, g);
  }

  lemma OneStepToError(s: System, t: Tid, g: Gid) returns (s': System)
    requires Inv(s) && Succeeded(s, g) && Unsafe(s, t, g)
    ensures NextWithoutCall(g, s, s') && Inv(s')
    ensures Failed(s', g) || (Succeeded(s', g) && Unsafe(s', t, g) && StepsToError(s', t) < StepsToError(s, t))
  {
    var e := StepToError(s, t, g);
    s' := Step(s, e);
    StepKeepsInv(s, e);
  }

  lemma {:induction false} PathToError(s: System, t: Tid, g: Gid) returns (path: seq<System>)
    requires Inv(s) && Succeeded(s, g) && Unsafe(s, t, g)
    ensures Continuation(g, s, path) && Failed(path[|path| - 1], g)
    decreases StepsToError(s, t)
  {
    var s' := OneStepToError(s, t, g);
    if Failed(s', g) {
      path := Prepend(g, s, s', [s']);
    } else {
      path := PathToError(s', t, g);
      path := Prepend(g, s, s', path);
    }
  }

  lemma Prepend(g: Gid, s: System, s': System, rest: seq<System>) returns (path: seq<System>)
    requires NextWithoutCall(g, s, s') && Continuation(g, s', rest)
    ensures Continuation(g, s, path) && path[|path| - 1] == rest[|rest| - 1]
  {
    path := [s] + rest;
    forall k | 0 <= k < |path| - 1
      ensures NextWithoutCall(g, path[k], path[k + 1])
    {
      if k > 0 {
        assert NextWithoutCall(g, rest[k - 1], rest[k - 1 + 1]);
      }
    }
  }

  /** When a Wait has returned nil, and nobody calls Go or TryGo on the group
      again, an error can still be recorded exactly when some worker of it is
      inside Go or has not come to the end of its function. */
  lemma NilCanBeLostIffWorkIsLeft(run: seq<System>, i: nat, g: Gid)
    requires Behavior(Init, Next, run) && i < |run| && Succeeded(run[i], g)
    ensures CanFail(run[i], g) <==> !AllSafe(run[i], g)
  {
    RunsKeepInv(run);
    var s := run[i];
    assert Inv(s);
    if AllSafe(s, g) {
      forall path | Continuation(g, s, path)
        ensures !Failed(path[|path| - 1], g)
      {
        SafeAlongPath(g, path, |path| - 1);
      }
    } else {
      var t :| t in s.workers && s.workers[t].g == g && !Safe(s.workers[t]);
      var path := PathToError(s, t, g);
    }
  }

  // ---------- A Go that was waiting all the time ----------

  /** The states of the run below: groups 0 and 1 share one permit, and group 1
      has it. */
  ghost function SharedState(calls: map<Tid, Limiter.Phase>, first: Fields, waiting: map<Tid, Worker>,
                             results: seq<Result>): System {
    System(Limiter.Sem(1, 1, 1, 0, 0, calls), map[0 := first, 1 := Fields(None, false, 0, [])],
           map[10 := Holding(1)] + waiting, map[], results)
  }

  lemma Grow(run: seq<System>, e: Event, s: System) returns (longer: seq<System>)
    requires Behavior(Init, Next, run) && Enabled(run[|run| - 1], e) && s == Step(run[|run| - 1], e)
    ensures Behavior(Init, Next, longer) && longer == run + [s]
  {
    longer := run + [s];
    RunGrows(run, e, s);
  }

  lemma AddGroup(run: seq<System>, g: Gid) returns (longer: seq<System>)
    requires Behavior(Init, Next, run) && g !in run[|run| - 1].groups
    ensures Behavior(Init, Next, longer) && longer != []
    ensures var s := run[|run| - 1];
            longer[|longer| - 1] == s.(groups := s.groups[g := Fields(None, false, 0, [])])
  {
    longer := Grow(run, NewGroup(g), Step(run[|run| - 1], NewGroup(g)));
  }

  lemma TwoGroups(sem: Limiter.Sem) returns (run: seq<System>)
    requires Limiter.Init(sem) && sem.capacity == 1
    ensures Behavior(Init, Next, run)
    ensures run[|run| - 1] == SharedState(map[], Fields(None, false, 0, []), map[], [])
  {
    run := AddGroup([System(sem, map[], map[], map[], [])], 0);
    run := AddGroup(run, 1);
    FirstPermit(run[|run| - 1]);
    run := Grow(run, TryGo(10, 1), SharedState(map[], Fields(None, false, 0, []), map[], []));
  }

  lemma FirstPermit(s: System)
    requires s == System(Limiter.Sem(1, 0, 0, 0, 0, map[]),
                         map[0 := Fields(None, false, 0, []), 1 := Fields(None, false, 0, [])], map[], map[], [])
    ensures Enabled(s, TryGo(10, 1))
    ensures Step(s, TryGo(10, 1)) == SharedState(map[], Fields(None, false, 0, []), map[], [])
  {
    assert Limiter.Step(s.sem, Limiter.Try(1)) == (Limiter.Sem(1, 1, 1, 0, 0, map[]), Limiter.Acquired);
  }

  /** Wait on an idle group, from beginning to end. */
  lemma WaitOn(run: seq<System>, g: Gid, w: Tid) returns (longer: seq<System>)
    requires Behavior(Init, Next, run)
    requires var s := run[|run| - 1]; s.waiters == map[] && g in s.groups && s.groups[g].wg == 0
    ensures Behavior(Init, Next, longer) && |longer| == |run| + 2 && longer[..|run|] == run
    ensures longer[|longer| - 1] == AfterWait(run[|run| - 1], g)
    ensures forall j | |run| - 1 <= j < |longer| - 1 :: NextWithoutCall(0, longer[j], longer[j + 1])
  {
    var s := run[|run| - 1];
    var s1 := s.(waiters := map[w := g]);
    assert s1.waiters - {w} == map[];
    longer := Grow(run, WaitPasses(w, g), s1);
    longer := Grow(longer, WaitReturns(w), AfterWait(s, g));
    assert NextWithoutCall(0, s, s1) by { assert Enabled(s, WaitPasses(w, g)); }
    assert NextWithoutCall(0, s1, AfterWait(s, g)) by { assert Enabled(s1, WaitReturns(w)); }
  }

  ghost function AfterWait(s: System, g: Gid): System
    requires g in s.groups
  {
    s.(groups := s.groups[g := s.groups[g].(canceled := true)], results := s.results + [Result(g, s.groups[g].err)])
  }

  /** A Go on group 0 sleeps in Acquire when Wait on group 0 returns nil. */
  lemma WaitReturnsBesideGo(sem: Limiter.Sem) returns (run: seq<System>)
    requires Limiter.Init(sem) && sem.capacity == 1
    ensures Behavior(Init, Next, run)
    ensures run[|run| - 1] ==
            SharedState(map[11 := Limiter.Asleep(1)], Fields(None, true, 0, []), map[11 := Waiting(0)],
                        [Result(0, None)])
  {
    run := TwoGroups(sem);
    var s := SharedState(map[11 := Limiter.Asleep(1)], Fields(None, false, 0, []), map[11 := Waiting(0)], []);
    run := Grow(run, Event.Go(11, 0, false, false), s);
    run := WaitOn(run, 0, 0);
  }

  /** The sleeping Go is woken and finds no permit. */
  lemma WokenGoIsRefused(s: System, s1: System, s2: System)
    requires s == SharedState(map[11 := Limiter.Asleep(1)], Fields(None, true, 0, []), map[11 := Waiting(0)], s.results)
    requires s1 == s.(sem := s.sem.(calls := map[11 := Limiter.Awake(1)]))
    requires s2 == SharedState(map[], Fields(None, true, 0, []), map[11 := Refused(0)], s.results)
    ensures Enabled(s, Event.Wakeup) && s1 == Step(s, Event.Wakeup)
    ensures Enabled(s1, Resume(11, true)) && s2 == Step(s1, Resume(11, true))
  {
    assert Limiter.Roused(s.sem.calls) == s1.sem.calls;
    assert s1.sem.calls - {11} == map[];
    assert Limiter.Step(s1.sem, Limiter.Recheck(11, true)) == (s2.sem, Limiter.Failed);
  }

  lemma RefusalIsRecorded(s: System, s': System)
    requires s == SharedState(map[], Fields(None, true, 0, []), map[11 := Refused(0)], s.results)
    requires s' == SharedState(map[], Fields(Some(ACQUIRE_FAILED), true, 0, [ACQUIRE_FAILED]), map[], s.results)
    ensures Enabled(s, RecordErr(11)) && s' == Step(s, RecordErr(11))
  {
    assert Recorded(s.groups[0], ACQUIRE_FAILED) == s'.groups[0];
    assert s.workers - {11} == s'.workers;
  }

  /** It fails because Wait has canceled the context: the next Wait returns an
      error, although nobody called Go or TryGo in between and no function of
      the group failed. */
  lemma WaitingGoSpoilsNil(sem: Limiter.Sem) returns (run: seq<System>, k: nat)
    requires Limiter.Init(sem) && sem.capacity == 1
    ensures Behavior(Init, Next, run) && k < |run| && Succeeded(run[k], 0)
    ensures run[k].results == [Result(0, None)] && Idle(run[|run| - 1], 0)
    ensures run[|run| - 1].results == [Result(0, None), Result(0, Some(ACQUIRE_FAILED))]
    ensures forall j | k <= j < |run| - 1 :: NextWithoutCall(0, run[j], run[j + 1])
  {
    var before := WaitReturnsBesideGo(sem);
    k := |before| - 1;
    var s := before[k];
    var s1 := s.(sem := s.sem.(calls := map[11 := Limiter.Awake(1)]));
    var s2 := SharedState(map[], Fields(None, true, 0, []), map[11 := Refused(0)], s.results);
    var s3 := SharedState(map[], Fields(Some(ACQUIRE_FAILED), true, 0, [ACQUIRE_FAILED]), map[], s.results);
    WokenGoIsRefused(s, s1, s2);
    RefusalIsRecorded(s2, s3);
    run := Grow(before, Event.Wakeup, s1);
    run := Grow(run, Resume(11, true), s2);
    run := Grow(run, RecordErr(11), s3);
    var mid := run;
    run := WaitOn(mid, 0, 0);
    forall j | k <= j < |run| - 1
      ensures NextWithoutCall(0, run[j], run[j + 1])
    {
      if j < |mid| - 1 {
        assert run[..|mid|][j] == mid[j] && run[..|mid|][j + 1] == mid[j + 1];
      }
    }
    assert run[..|mid|][k] == before[k];
  }
}
