// internal/scheduler: when concurrent RunDue calls launch an entry too early.
//
// A RunDue call collects the due entries first and claims them later. By then
// another call may have launched an entry and moved its due time on.

module SchedulerSpacing {
  import opened Common
  import opened Scheduler
  import opened SchedulerRuns
  import opened SchedulerProgress
  import opened SchedulerOverlap
  import Limiter

  /** Call c is about to claim the entry, which is not due at the call's instant. */
  ghost predicate EarlyClaim(s: State, c: CallId, id: EntryId) {
    && Choosing(s, c) && s.calls[c].todo[0] == id
    && !s.items[id].running && !Due(s.items[id].nextDue, s.calls[c].now)
  }

  /** The entry's due time has been moved on by its last launch, past the instants
      of all RunDue calls that have it on their list. */
  ghost predicate Spent(s: State, id: EntryId) {
    && id in s.items
    && (forall r | r in s.runs :: s.runs[r].entry == id ==> !s.runs[r].phase.Claimed?)
    && forall c | c in s.calls :: id in s.calls[c].todo ==> !Due(s.items[id].nextDue, s.calls[c].now)
  }

  /** A step other than collecting this entry. */
  ghost predicate NextUncollected(id: EntryId, s: State, s': State) {
    exists e: Event :: Enabled(s, e) && s' == Step(s, e) && !(e.Collect? && id in e.due)
  }

  ghost predicate Later(id: EntryId, s: State, path: seq<State>) {
    && path != [] && path[0] == s
    && forall k | 0 <= k < |path| - 1 :: NextUncollected(id, path[k], path[k + 1])
  }

  /** The entry can be launched although it is not due, without being collected
      once more. */
  ghost predicate CanLaunchEarly(s: State, id: EntryId) {
    exists path :: Later(id, s, path) && LaunchesEarly(path[|path| - 1], id)
  }

  ghost predicate LaunchesEarly(s: State, id: EntryId) { exists c :: EarlyClaim(s, c, id) }

  // ---------- Nobody lists it ----------

  lemma {:induction false} UncollectedAlongPath(id: EntryId, path: seq<State>, k: nat)
    requires k < |path| && !Collected(path[0], id)
    requires forall x | 0 <= x < |path| - 1 :: NextUncollected(id, path[x], path[x + 1])
    ensures !Collected(path[k], id)
  {
    if k > 0 {
      UncollectedAlongPath(id, path, k - 1);
      assert NextUncollected(id, path[k - 1], path[k - 1 + 1]);
      var e: Event :|
        Enabled(path[k - 1], e) && path[k] == Step(path[k - 1], e) && !(e.Collect? && id in e.due);
      if Collected(path[k], id) {
        ListedWasSo(path[k - 1], e, id);
      }
    }
  }

  lemma ListedWasSo(s: State, e: Event, id: EntryId)
    requires Enabled(s, e) && !(e.Collect? && id in e.due) && Collected(Step(s, e), id)
    ensures Collected(s, id)
  {
    if e.Collect? {
      var c :| c in Step(s, e).calls && id in Step(s, e).calls[c].todo;
      assert c != e.c && id in s.calls[c].todo;
    } else {
      CollectedWasSo(s, e, id);
    }
  }

  // ---------- Some call lists it ----------

  /** Call c has the spent entry on its list. */
  ghost predicate Lists(s: State, c: CallId, id: EntryId) {
    c in s.calls && id in s.calls[c].todo && Spent(s, id)
  }

  lemma PrependLater(id: EntryId, s: State, s': State, rest: seq<State>) returns (path: seq<State>)
    requires NextUncollected(id, s, s') && Later(id, s', rest)
    ensures Later(id, s, path) && path[|path| - 1] == rest[|rest| - 1]
  {
    path := [s] + rest;
    forall k | 0 <= k < |path| - 1
      ensures NextUncollected(id, path[k], path[k + 1])
    {
      if k > 0 {
        assert NextUncollected(id, rest[k - 1], rest[k - 1 + 1]);
      }
    }
  }

  /** Call c gets on with its list and leaves the idle entry as it is. */
  lemma IdleCallerStep(s: State, c: CallId, id: EntryId) returns (s': State)
    requires Inv(s) && Lists(s, c, id) && !s.items[id].running && !EarlyClaim(s, c, id)
    ensures NextUncollected(id, s, s') && Inv(s')
    ensures Lists(s', c, id) && !s'.items[id].running && StepsLeft(s', c) < StepsLeft(s, c)
  {
    var e := CallerGoesOn(s, c, id);
    s' := Step(s, e);
    CallerComesCloser(s, e, c, id);
    CallerLeavesSpent(s, e, c, id);
    StepKeepsInv(s, e);
  }

  lemma CallerLeavesSpent(s: State, e: Event, c: CallId, id: EntryId)
    requires RefersToItems(s) && FlagsCount(s)
    requires Lists(s, c, id) && !s.items[id].running && GetsOn(s, e, c, id) && !EarlyClaim(s, c, id)
    ensures Spent(Step(s, e), id) && !Step(s, e).items[id].running
  {
    if e.Skip? || e.Claim? {
      ChoiceLeavesSpent(s, e, c, id);
    } else {
      if e.Advance? {
        FlagIsSet(s, e.r);
      }
      StartLeavesSpent(s, e, id);
    }
  }

  lemma ChoiceLeavesSpent(s: State, e: Event, c: CallId, id: EntryId)
    requires Enabled(s, e) && (e.Skip? || e.Claim?) && e.c == c
    requires Lists(s, c, id) && !s.items[id].running && s.calls[c].todo[0] != id
    ensures Spent(Step(s, e), id) && !Step(s, e).items[id].running
  {
  }

  lemma StartLeavesSpent(s: State, e: Event, id: EntryId)
    requires Enabled(s, e) && (e.Advance? || e.Add? || e.Spawn?) && (e.Advance? ==> s.runs[e.r].entry != id)
    requires Spent(s, id) && !s.items[id].running
    ensures Spent(Step(s, e), id) && !Step(s, e).items[id].running
  {
  }

  lemma {:induction false} UntilClaim(s: State, c: CallId, id: EntryId) returns (path: seq<State>)
    requires Inv(s) && Lists(s, c, id) && !s.items[id].running
    ensures Later(id, s, path) && LaunchesEarly(path[|path| - 1], id)
    decreases StepsLeft(s, c)
  {
    if EarlyClaim(s, c, id) {
      path := [s];
    } else {
      var s' := IdleCallerStep(s, c, id);
      path := UntilClaim(s', c, id);
      path := PrependLater(id, s, s', path);
    }
  }

  /** The steps until an invocation is over, with a wakeup if it sleeps. */
  ghost function StepsToEnd(s: State, r: RunId): nat {
    WeightAt(s.runs, r, Rank) * 2 + if Sleeps(s, r) then 1 else 0
  }

  ghost predicate Holds(s: State, r: RunId, id: EntryId) {
    r in s.runs && s.runs[r].HoldsFlag() && s.runs[r].entry == id
  }

  lemma WakeupWakes(s: State, r: RunId)
    requires Sleeps(s, r)
    ensures !Sleeps(Step(s, Event.Wakeup), r) && Step(s, Event.Wakeup).runs == s.runs
    ensures Step(s, Event.Wakeup).items == s.items
  {
  }

  /** An event of this invocation other than its claim. */
  ghost predicate Moves(s: State, e: Event, r: RunId) {
    Enabled(s, e) && RunOf(e) == Some(r) && !FromOutside(e) && !e.Claim? && !TakesTurn(s, e)
  }

  lemma MovingEndsSooner(s: State, e: Event, r: RunId)
    requires SemCallsMatch(s) && Moves(s, e, r)
    ensures StepsToEnd(Step(s, e), r) < StepsToEnd(s, r)
  {
    RankFalls(s, e);
  }

  lemma MovingHolds(s: State, e: Event, r: RunId, id: EntryId)
    requires Holds(s, r, id) && Moves(s, e, r) && id in s.items
    ensures id in Step(s, e).items && (Holds(Step(s, e), r, id) || !Step(s, e).items[id].running)
  {
  }

  /** The steps of invocations that do not move the due time on. */
  lemma InvocationLeavesSpent(s: State, e: Event, c: CallId, id: EntryId)
    requires Lists(s, c, id) && Enabled(s, e)
    requires e.Wakeup? || (RunOf(e).Some? && !e.Claim? && (e.Advance? ==> s.runs[e.r].entry != id))
    ensures Lists(Step(s, e), c, id)
  {
  }

  /** What the entry's invocation does next, on its own or woken up. */
  lemma HolderEvent(s: State, r: RunId, c: CallId, id: EntryId) returns (e: Event)
    requires Inv(s) && Lists(s, c, id) && Holds(s, r, id)
    ensures Enabled(s, e) && StepsToEnd(Step(s, e), r) < StepsToEnd(s, r)
    ensures e.Wakeup? || (Moves(s, e, r) && !e.Advance?)
  {
    if Sleeps(s, r) {
      e := Event.Wakeup;
      WakeupWakes(s, r);
    } else {
      InvMeansCanMove(s, r);
      e := NextOf(s, r);
      MovingEndsSooner(s, e, r);
    }
  }

  /** The entry's invocation gets on. */
  lemma HolderStep(s: State, r: RunId, c: CallId, id: EntryId) returns (s': State)
    requires Inv(s) && Lists(s, c, id) && Holds(s, r, id)
    ensures NextUncollected(id, s, s') && Inv(s') && Lists(s', c, id)
    ensures Holds(s', r, id) || !s'.items[id].running
    ensures StepsToEnd(s', r) < StepsToEnd(s, r)
  {
    var e := HolderEvent(s, r, c, id);
    s' := Step(s, e);
    InvocationLeavesSpent(s, e, c, id);
    if !e.Wakeup? {
      MovingHolds(s, e, r, id);
    }
    StepKeepsInv(s, e);
  }

  lemma {:induction false} UntilIdle(s: State, r: RunId, c: CallId, id: EntryId) returns (path: seq<State>)
    requires Inv(s) && Lists(s, c, id) && Holds(s, r, id)
    ensures Later(id, s, path) && LaunchesEarly(path[|path| - 1], id)
    decreases StepsToEnd(s, r)
  {
    var s' := HolderStep(s, r, c, id);
    if Holds(s', r, id) {
      path := UntilIdle(s', r, c, id);
    } else {
      path := UntilClaim(s', c, id);
    }
    path := PrependLater(id, s, s', path);
  }

  /** An entry that has been launched, and is not due for any RunDue call that has
      it on its list, can be launched once more before it is collected again
      exactly when there is such a call. */
  lemma EarlyLaunchIffListed(run: seq<State>, i: nat, id: EntryId)
    requires Behavior(Init, Next, run) && i < |run| && Spent(run[i], id)
    ensures CanLaunchEarly(run[i], id) <==> Collected(run[i], id)
  {
    RunsKeepInv(run);
    var s := run[i];
    assert Inv(s);
    if Collected(s, id) {
      var c :| c in s.calls && id in s.calls[c].todo;
      if s.items[id].running {
        SomeoneWeighs(s.runs, Flag(id));
        var r :| r in s.runs && Flag(id)(s.runs[r]) != 0;
        var path := UntilIdle(s, r, c, id);
      } else {
        var path := UntilClaim(s, c, id);
      }
    } else {
      forall path | Later(id, s, path)
        ensures !LaunchesEarly(path[|path| - 1], id)
      {
        UncollectedAlongPath(id, path, |path| - 1);
        var last := path[|path| - 1];
        forall c | Choosing(last, c)
          ensures last.calls[c].todo[0] != id
        {
          ClaimedWasCollected(last, c);
        }
      }
    }
  }

  // ---------- A job for one launch that is launched twice ----------

  /** Both RunDue calls have collected the entry, and the first has launched it. */
  lemma LaunchedBesideSecondCall(sem: Limiter.Sem) returns (run: seq<State>)
    requires Limiter.Init(sem)
    ensures Behavior(Init, Next, run)
    ensures var s := run[|run| - 1];
            && s.items == map[0 := Item("job", 0, None, true)] && !s.limited
            && s.runs == map[0 := Invocation(0, 0, Working(false))]
            && s.calls == map[1 := Call(0, [0], None)]
  {
    run := RegisterOne(sem, 0);
    var s := run[|run| - 1];
    var s' := s.(calls := map[1 := Call(0, [0], None)]);
    RunGrows(run, Collect(1, 0, [0]), s');
    run := run + [s'];
    run := ClaimFirst(run, 0, 0, 0, 0);
    assert run[|run| - 1].calls - {0} == s'.calls;
    run := StartClaimed(run, 0, 0);
  }

  /** That launch ends. */
  lemma FirstLaunchEnds(run: seq<State>) returns (longer: seq<State>)
    requires Behavior(Init, Next, run)
    requires var s := run[|run| - 1];
             && s.items == map[0 := Item("job", 0, None, true)] && !s.limited
             && s.runs == map[0 := Invocation(0, 0, Working(false))]
    ensures Behavior(Init, Next, longer) && |longer| == |run| + 2 && longer[..|run|] == run
    ensures longer[|longer| - 1] == run[|run| - 1].(runs := map[0 := Invocation(0, 0, Leaving)],
                                                    items := map[0 := Item("job", 0, None, false)])
  {
    var s := run[|run| - 1];
    var s1 := s.(runs := map[0 := Invocation(0, 0, Finishing)]);
    var s2 := s.(runs := map[0 := Invocation(0, 0, Leaving)], items := map[0 := Item("job", 0, None, false)]);
    RunGrows(run, FuncEnds(0), s1);
    RunGrows(run + [s1], ClearFlag(0), s2);
    longer := run + [s1] + [s2];
  }

  /** The job has no interval, and its only launch is at work in state k. Later the
      second call claims it once more. */
  lemma OneShotIsLaunchedTwice(sem: Limiter.Sem) returns (run: seq<State>, k: nat)
    requires Limiter.Init(sem)
    ensures Behavior(Init, Next, run) && k < |run|
    ensures At(run[k], 0, Working(false)) && run[k].items == map[0 := Item("job", 0, None, true)]
    ensures At(run[|run| - 1], 1, Claimed) && run[k].runs[0].entry == run[|run| - 1].runs[1].entry
  {
    var before := LaunchedBesideSecondCall(sem);
    k := |before| - 1;
    run := FirstLaunchEnds(before);
    assert run[..|before|][k] == before[k];
    var s := run[|run| - 1];
    RunGrows(run, Claim(1, 1), Step(s, Claim(1, 1)));
    run := run + [Step(s, Claim(1, 1))];
  }
}
