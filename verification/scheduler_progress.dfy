// internal/scheduler: RunDue calls and invocations come to an end.
//
// Each entry on the list of a RunDue call may still become an invocation. A
// woken Acquire may find no permit and sleep again.

module SchedulerProgress {
  import opened Common
  import opened Scheduler
  import opened SchedulerRuns
  import Limiter

  /** A call from outside, or a wakeup by a cancellation. */
  ghost predicate FromOutside(e: Event) { e.Register? || e.Remove? || e.Collect? || e.Wakeup? }

  ghost predicate NextInside(s: State, s': State) {
    exists e: Event :: Enabled(s, e) && s' == Step(s, e) && !FromOutside(e)
  }

  ghost predicate Stuck(s: State) { forall e | Enabled(s, e) :: FromOutside(e) }

  /** The steps that an invocation still has to take, but for turns in Acquire. */
  ghost function Rank(r: Invocation): int {
    match r.phase
    case Claimed => 10
    case Advanced => 9
    case Added => 8
    case Spawned => 7
    case Waiting => 6
    case Working(_) => 5
    case Releasing => 4
    case Broadcasting => 3
    case Refused => 3
    case Finishing => 2
    case Leaving => 1
  }

  /** A call may still start an invocation of each entry on its list. */
  ghost function CallRank(c: Call): int { 11 * |c.todo| + 1 }

  ghost function Work(s: State): (n: nat) {
    SumBounds(s.runs, Rank);
    SumBounds(s.calls, CallRank);
    Sum(s.runs, Rank) + Sum(s.calls, CallRank)
  }

  /** The woken invocations, which take a turn in Acquire next. */
  ghost function Woken(s: State): set<RunId> { set r | r in s.sem.calls && s.sem.calls[r].Awake? }

  ghost function Left(s: State): nat { LeftToDo(Work(s), Work(s), |Woken(s)|) }

  lemma WokenAreFew(s: State)
    requires SemCallsMatch(s)
    ensures |Woken(s)| <= Work(s)
  {
    SumAtLeast(s.runs, Rank, Woken(s));
    SumBounds(s.calls, CallRank);
  }

  /** A turn in Acquire that ends asleep again. */
  ghost predicate TakesTurn(s: State, e: Event)
    requires Enabled(s, e)
  {
    e.Resume? && SemAfter(s, e).1.MustWait?
  }

  lemma TurnIsTaken(s: State, e: Event)
    requires SemCallsMatch(s) && Enabled(s, e) && TakesTurn(s, e)
    ensures Work(Step(s, e)) == Work(s) && |Woken(Step(s, e))| < |Woken(s)|
  {
    SumMoves(s, e, Rank);
    assert Woken(Step(s, e)) == Woken(s) - {e.r};
  }

  ghost function RankAt(runs: map<RunId, Invocation>, r: Option<RunId>): int {
    if r.Some? then WeightAt(runs, r.value, Rank) else 0
  }

  lemma WorkIsDone(s: State, e: Event)
    requires SemCallsMatch(s) && Enabled(s, e) && !FromOutside(e) && !TakesTurn(s, e)
    ensures Work(Step(s, e)) < Work(s)
  {
    SumMoves(s, e, Rank);
    if e.Skip? || e.Claim? {
      SumUpdate(s.calls, e.c, CallsAfter(s, e)[e.c], CallRank);
    } else if e.Return? {
      SumRemove(s.calls, e.c, CallRank);
    } else {
      if e.Spawn? {
        SpawnKeepsCalls(s, e);
      }
      RankFalls(s, e);
    }
  }

  lemma SpawnKeepsCalls(s: State, e: Event)
    requires Enabled(s, e) && e.Spawn?
    ensures Sum(CallsAfter(s, e), CallRank) == Sum(s.calls, CallRank)
  {
    var c := s.runs[e.r].caller;
    SumUpdate(s.calls, c, s.calls[c].(current := None), CallRank);
  }

  lemma RankFalls(s: State, e: Event)
    requires SemCallsMatch(s) && Enabled(s, e) && !FromOutside(e) && !TakesTurn(s, e)
    requires !e.Skip? && !e.Claim? && !e.Return?
    ensures RunOf(e).Some?
    ensures WeightAt(RunsAfter(s, e), RunOf(e).value, Rank) < WeightAt(s.runs, RunOf(e).value, Rank)
  {
  }

  lemma StepInsideWindsDown(bound: nat, s: State, s': State)
    requires Inv(s) && NextInside(s, s') && Work(s) <= bound
    ensures Inv(s') && Work(s') <= bound
    ensures LeftToDo(bound, Work(s'), |Woken(s')|) < LeftToDo(bound, Work(s), |Woken(s)|)
  {
    var e: Event :| Enabled(s, e) && s' == Step(s, e) && !FromOutside(e);
    StepKeepsInv(s, e);
    WokenAreFew(s');
    if TakesTurn(s, e) {
      TurnIsTaken(s, e);
    } else {
      WorkIsDone(s, e);
    }
    WorkOrTurnWindsDown(bound, Work(s), |Woken(s)|, Work(s'), |Woken(s')|);
  }

  lemma {:induction false} PathWindsDown(bound: nat, path: seq<State>, k: nat)
    requires k < |path| && Inv(path[0]) && Work(path[0]) <= bound
    requires forall i | 0 <= i < |path| - 1 :: NextInside(path[i], path[i + 1])
    ensures Inv(path[k]) && Work(path[k]) <= bound
    ensures LeftToDo(bound, Work(path[k]), |Woken(path[k])|) <=
            LeftToDo(bound, Work(path[0]), |Woken(path[0])|) - k
  {
    if k > 0 {
      PathWindsDown(bound, path, k - 1);
      assert NextInside(path[k - 1], path[k - 1 + 1]);
      StepInsideWindsDown(bound, path[k - 1], path[k]);
    }
  }

  /** While a RunDue call or an invocation is left, someone can move. */
  lemma SomeoneCanMove(s: State) returns (e: Event)
    requires Inv(s) && (s.calls != map[] || s.runs != map[])
    ensures Enabled(s, e) && !FromOutside(e)
  {
    if c :| c in s.calls {
      e := CallerMove(s, c);
    } else {
      var r :| r in s.runs;
      if Sleeps(s, r) {
        r := OtherMover(s, r);
      }
      InvMeansCanMove(s, r);
      e := NextOf(s, r);
    }
  }

  lemma CallerMove(s: State, c: CallId) returns (e: Event)
    requires CallersMatch(s) && RefersToItems(s) && c in s.calls
    ensures Enabled(s, e) && !FromOutside(e)
  {
    var call := s.calls[c];
    if call.current.Some? {
      var r := call.current.value;
      assert At(s, r, s.runs[r].phase) && StepOfCaller(s, r);
      e := match s.runs[r].phase case Claimed => Advance(r) case Advanced => Add(r) case _ => Spawn(r);
    } else if call.todo == [] {
      e := Event.Return(c);
    } else if s.items[call.todo[0]].running {
      e := Skip(c);
    } else {
      var r := FreshNat(s.runs.Keys);
      e := Claim(c, r);
    }
  }

  ghost predicate Sleeps(s: State, r: RunId) { r in s.sem.calls && s.sem.calls[r].Asleep? }

  /** While one sleeps in Acquire, another has a permit or owes its Broadcast. */
  lemma OtherMover(s: State, r: RunId) returns (u: RunId)
    requires Limiter.Inv(s.sem) && PermitsHeld(s) && SemCallsMatch(s) && Sleeps(s, r)
    ensures u in s.runs && !Sleeps(s, u)
  {
    if o :| o in s.sem.calls && s.sem.calls[o].Owing? {
      u := o;
    } else {
      assert s.sem.inFlight != 0;
      u := PermitHolder(s);
    }
  }

  lemma PermitHolder(s: State) returns (u: RunId)
    requires PermitsHeld(s) && SemCallsMatch(s) && s.sem.inFlight != 0
    ensures u in s.runs && s.runs[u].HasPermit() && u !in s.sem.calls
  {
    SomeoneWeighs(s.runs, Permit);
    u :| u in s.runs && Permit(s.runs[u]) != 0;
  }

  lemma NextOf(s: State, r: RunId) returns (e: Event)
    requires r in s.runs && CanMove(s, r) && !Sleeps(s, r)
    ensures Enabled(s, e) && !FromOutside(e) && !e.Claim? && RunOf(e) == Some(r)
    ensures e.Advance? ==> s.runs[r].phase.Claimed?
    ensures !TakesTurn(s, e)
  {
    match s.runs[r].phase
    case Claimed => e := Advance(r);
    case Advanced => e := Add(r);
    case Added => e := Spawn(r);
    case Spawned => e := if s.limited then Acquire(r, true, true) else Begin(r);
    case Waiting => e := Resume(r, true);
    case Working(_) => e := FuncEnds(r);
    case Refused => e := Report(r);
    case Releasing => e := Unlock(r);
    case Broadcasting => e := Broadcast(r);
    case Finishing => e := ClearFlag(r);
    case Leaving => e := WgDone(r);
  }

  ghost predicate AllOver(s: State) {
    && s.calls == map[] && s.runs == map[] && s.wg == 0 && s.sem.inFlight == 0
    && forall id | id in s.items :: !s.items[id].running
  }

  /** From any state, in whatever order RunDue calls and invocations move and
      however often a woken Acquire sleeps again: without new calls only so many
      steps remain. None is possible exactly when all of them have come to their
      end; WaitInflight would then return, no entry is marked as running and all
      permits are back. */
  lemma InvocationsComeToAnEnd(run: seq<State>, i: nat, path: seq<State>)
    requires Behavior(Init, Next, run) && i < |run| && path != [] && path[0] == run[i]
    requires forall k | 0 <= k < |path| - 1 :: NextInside(path[k], path[k + 1])
    ensures |path| - 1 <= Left(run[i])
    ensures Stuck(path[|path| - 1]) <==> AllOver(path[|path| - 1])
  {
    RunsKeepInv(run);
    assert Inv(run[i]);
    var last := path[|path| - 1];
    PathWindsDown(Work(run[i]), path, |path| - 1);
    if last.calls != map[] || last.runs != map[] {
      var e := SomeoneCanMove(last);
    } else {
      NothingRuns(last);
    }
  }

  lemma NothingRuns(s: State)
    requires Inv(s) && s.calls == map[] && s.runs == map[]
    ensures AllOver(s) && Stuck(s)
  {
    SumZero(s.runs, Permit);
    SumZero(s.runs, Member);
    forall id | id in s.items
      ensures !s.items[id].running
    {
      SumZero(s.runs, Flag(id));
    }
  }
}
