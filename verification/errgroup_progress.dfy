// internal/errgroup: the calls that have been made come to an end.
//
// A woken Go may find no permit and sleep again, so that its turns are bounded
// only by the Broadcasts still to come.

module ErrGroupProgress {
  import opened Common
  import opened ErrGroup
  import Limiter

  /** A call from outside, or a wakeup by a cancellation. */
  ghost predicate FromOutside(e: Event) { e.NewGroup? || e.Go? || e.TryGo? || e.WaitPasses? || e.Wakeup? }

  ghost predicate NextInside(s: System, s': System) {
    exists e: Event :: Enabled(s, e) && s' == Step(s, e) && !FromOutside(e)
  }

  ghost predicate Stuck(s: System) { forall e | Enabled(s, e) :: FromOutside(e) }

  /** The steps that a worker still has to take, but for turns in Acquire. */
  ghost function Rank(t: Worker): int {
    match t
    case Waiting(_) => 7
    case Holding(_) => 6
    case Running(_) => 5
    case Erred(_, _) => 4
    case Releasing(_) => 3
    case Broadcasting(_) => 2
    case Refused(_) => 1
    case Released(_) => 1
  }

  ghost function Work(s: System): (n: nat) {
    SumBounds(s.workers, Rank);
    Sum(s.workers, Rank) + |s.waiters|
  }

  /** The woken calls, which take a turn in Acquire next. */
  ghost function Woken(s: System): set<Tid> { set t | t in s.sem.calls && s.sem.calls[t].Awake? }

  ghost function Left(s: System): nat { LeftToDo(Work(s), Work(s), |Woken(s)|) }

  lemma WokenAreFew(s: System)
    requires CallsMatch(s)
    ensures |Woken(s)| <= Work(s)
  {
    SumAtLeast(s.workers, Rank, Woken(s));
  }

  /** A turn in Acquire that ends asleep again. */
  ghost predicate TakesTurn(s: System, e: Event)
    requires Enabled(s, e)
  {
    e.Resume? && SemAfter(s, e).1.MustWait?
  }

  lemma TurnIsTaken(s: System, e: Event)
    requires CallsMatch(s) && Enabled(s, e) && TakesTurn(s, e)
    ensures Work(Step(s, e)) == Work(s) && |Woken(Step(s, e))| < |Woken(s)|
  {
    SumMoves(s, e, Rank);
    assert Woken(Step(s, e)) == Woken(s) - {e.t};
  }

  lemma WorkIsDone(s: System, e: Event)
    requires CallsMatch(s) && Enabled(s, e) && !FromOutside(e) && !TakesTurn(s, e)
    ensures Work(Step(s, e)) < Work(s)
  {
    if e.WaitReturns? {
      assert s.waiters.Keys == (s.waiters - {e.w}).Keys + {e.w};
    } else {
      SumMoves(s, e, Rank);
      RankFalls(s, e);
    }
  }

  lemma RankFalls(s: System, e: Event)
    requires CallsMatch(s) && Enabled(s, e) && !FromOutside(e) && !TakesTurn(s, e) && !e.WaitReturns?
    ensures WorkerOf(e).Some? && Step(s, e).waiters == s.waiters
    ensures WeightAt(WorkersAfter(s, e), WorkerOf(e).value, Rank) < WeightAt(s.workers, WorkerOf(e).value, Rank)
  {
  }

  lemma StepInsideWindsDown(bound: nat, s: System, s': System)
    requires Inv(s) && NextInside(s, s') && Work(s) <= bound
    ensures Inv(s') && Work(s') <= bound
    ensures LeftToDo(bound, Work(s'), |Woken(s')|) < LeftToDo(bound, Work(s), |Woken(s)|)
  {
    var e: Event :| Enabled(s, e) && s' == Step(s, e) && !FromOutside(e);
    StepKeepsInv(s, e);
    WokenAreFew(s');
    if TakesTurn(s, e) {
      TurnIsTaken(s, e);
    } else {
      WorkIsDone(s, e);
    }
    WorkOrTurnWindsDown(bound, Work(s), |Woken(s)|, Work(s'), |Woken(s')|);
  }

  lemma {:induction false} PathWindsDown(bound: nat, path: seq<System>, k: nat)
    requires k < |path| && Inv(path[0]) && Work(path[0]) <= bound
    requires forall i | 0 <= i < |path| - 1 :: NextInside(path[i], path[i + 1])
    ensures Inv(path[k]) && Work(path[k]) <= bound
    ensures LeftToDo(bound, Work(path[k]), |Woken(path[k])|) <=
            LeftToDo(bound, Work(path[0]), |Woken(path[0])|) - k
  {
    if k > 0 {
      PathWindsDown(bound, path, k - 1);
      assert NextInside(path[k - 1], path[k - 1 + 1]);
      StepInsideWindsDown(bound, path[k - 1], path[k]);
    }
  }

  /** While a worker or a Wait is left, someone can move from inside. */
  lemma SomeoneCanMove(s: System) returns (e: Event)
    requires Inv(s) && (s.workers != map[] || s.waiters != map[])
    ensures Enabled(s, e) && !FromOutside(e)
  {
    if s.waiters != map[] {
      e := WaiterMove(s);
    } else {
      e := WorkerMove(s);
    }
  }

  lemma WaiterMove(s: System) returns (e: Event)
    requires FirstErrorStands(s) && s.waiters != map[]
    ensures Enabled(s, e) && !FromOutside(e)
  {
    var w :| w in s.waiters;
    e := WaitReturns(w);
  }

  lemma WorkerMove(s: System) returns (e: Event)
    requires Limiter.Inv(s.sem) && PermitsHeld(s) && CallsMatch(s) && WaitGroupsCount(s) && s.workers != map[]
    ensures Enabled(s, e) && !FromOutside(e)
  {
    var t :| t in s.workers;
    if Sleeps(s, t) {
      t := OtherMover(s, t);
    }
    WorkersCanMove(s, t);
    e := NextOf(s, t);
  }

  ghost predicate Sleeps(s: System, t: Tid) { t in s.sem.calls && s.sem.calls[t].Asleep? }

  /** While one sleeps in Acquire, another has a permit or owes its Broadcast. */
  lemma OtherMover(s: System, t: Tid) returns (u: Tid)
    requires Limiter.Inv(s.sem) && PermitsHeld(s) && CallsMatch(s) && Sleeps(s, t)
    ensures u in s.workers && !Sleeps(s, u)
  {
    if r :| r in s.sem.calls && s.sem.calls[r].Owing? {
      u := r;
    } else {
      u := PermitHolder(s);
    }
  }

  lemma NextOf(s: System, t: Tid) returns (e: Event)
    requires t in s.workers && CanMove(s, t) && !Sleeps(s, t)
    ensures Enabled(s, e) && !FromOutside(e)
  {
    match s.workers[t]
    case Waiting(_) => e := Resume(t, true);
    case Refused(_) => e := RecordErr(t);
    case Holding(_) => e := Spawn(t);
    case Running(_) => e := FnReturns(t, None);
    case Erred(_, _) => e := RecordErr(t);
    case Releasing(_) => e := Unlock(t);
    case Broadcasting(_) => e := Broadcast(t);
    case Released(_) => e := Done(t);
  }

  ghost predicate AllOver(s: System) {
    s.workers == map[] && s.waiters == map[] && s.sem.inFlight == 0 && forall g | g in s.groups :: s.groups[g].wg == 0
  }

  /** From any state, in whatever order Go calls, goroutines and Waits move and
      however often a woken call sleeps again: without new calls only so many
      steps remain. None is possible exactly when all of them have come to their
      end; all permits are then back and every Wait would return at once. */
  lemma CallsComeToAnEnd(run: seq<System>, i: nat, path: seq<System>)
    requires Behavior(Init, Next, run) && i < |run| && path != [] && path[0] == run[i]
    requires forall k | 0 <= k < |path| - 1 :: NextInside(path[k], path[k + 1])
    ensures |path| - 1 <= Left(run[i])
    ensures Stuck(path[|path| - 1]) <==> AllOver(path[|path| - 1])
  {
    RunsKeepInv(run);
    assert Inv(run[i]);
    var last := path[|path| - 1];
    PathWindsDown(Work(run[i]), path, |path| - 1);
    if last.workers != map[] || last.waiters != map[] {
      var e := SomeoneCanMove(last);
    } else {
      SumZero(last.workers, Permit);
      forall g | g in last.groups
        ensures last.groups[g].wg == 0
      {
        SumZero(last.workers, Member(g));
      }
    }
  }
}
