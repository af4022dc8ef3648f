// internal/errgroup: groups of goroutines that share one semaphore.
//
// The groups' steps drive the semaphore of module Limiter: every permit that
// moves does so by a step of that system, so its guarantees carry over. The
// semaphore is installed before any Go and used by the groups only.

module ErrGroup {
  import opened Common
  import Limiter

  type Gid = nat
  type Tid = nat
  type Error = nat

  /** The error that Go records when it cannot acquire a permit. */
  const ACQUIRE_FAILED: Error := 0

  datatype Fields = Fields(
    err: Option<Error>,
    canceled: bool,
    wg: int,
    attempts: seq<Error>)  // history: every error handed to recordErr

  /** One Go or TryGo call and the goroutine it starts. */
  datatype Worker =
    | Waiting(g: Gid)        // inside Acquire
    | Refused(g: Gid)        // Acquire failed, not recorded yet
    | Holding(g: Gid)        // has a permit, not yet in the wait group
    | Running(g: Gid)        // in the wait group, in its function
    | Erred(g: Gid, e: Error)
    | Releasing(g: Gid)      // about to give the permit back
    | Broadcasting(g: Gid)   // given back, the Broadcast is still to come
    | Released(g: Gid)       // about to leave the wait group
  {
    /** The worker has a permit that it has not given back. */
    predicate HasPermit() { Holding? || Running? || Erred? || Releasing? }

    predicate InWaitGroup() { Running? || Erred? || Releasing? || Broadcasting? || Released? }
  }

  datatype Result = Result(g: Gid, err: Option<Error>)

  datatype System = System(
    sem: Limiter.Sem,
    groups: map<Gid, Fields>,
    workers: map<Tid, Worker>,
    waiters: map<Tid, Gid>,  // Wait calls whose wg.Wait has returned
    results: seq<Result>)    // history: what Wait calls have returned

  datatype Event =
    | NewGroup(g: Gid)
    | Go(t: Tid, g: Gid, refused: bool, canceled: bool)
    | Resume(t: Tid, canceled: bool)
    | TryGo(t: Tid, g: Gid)
    | Spawn(t: Tid)
    | FnReturns(t: Tid, err: Option<Error>)
    | RecordErr(t: Tid)
    | Unlock(t: Tid)
    | Broadcast(t: Tid)
    | Done(t: Tid)
    | WaitPasses(w: Tid, g: Gid)
    | WaitReturns(w: Tid)
    | Wakeup

  /** The semaphore step that is part of an event. */
  function SemEvent(e: Event): Option<Limiter.Event> {
    match e
    case Go(t, _, refused, canceled) => Some(Limiter.Enter(t, 1, refused, canceled))
    case Resume(t, canceled) => Some(Limiter.Recheck(t, canceled))
    case TryGo(_, _) => Some(Limiter.Try(1))
    case Unlock(t) => Some(Limiter.Unlock(t, 1))
    case Broadcast(t) => Some(Limiter.Broadcast(t))
    case Wakeup => Some(Limiter.Wakeup)
    case _ => None
  }

  ghost predicate Enabled(s: System, e: Event) {
    && (SemEvent(e).Some? ==> Limiter.Enabled(s.sem, SemEvent(e).value))
    && match e
       case NewGroup(g) => g !in s.groups
       case Go(t, g, refused, _) => t !in s.workers && g in s.groups && (s.groups[g].canceled ==> refused)
       case Resume(t, canceled) =>
         t in s.workers && s.workers[t].Waiting? && s.workers[t].g in s.groups
         && (s.groups[s.workers[t].g].canceled ==> canceled)
       case TryGo(t, g) => t !in s.workers && g in s.groups
       case Spawn(t) => t in s.workers && s.workers[t].Holding? && s.workers[t].g in s.groups
       case FnReturns(t, _) => t in s.workers && s.workers[t].Running?
       case RecordErr(t) =>
         t in s.workers && (s.workers[t].Erred? || s.workers[t].Refused?) && s.workers[t].g in s.groups
       case Unlock(t) => t in s.workers && s.workers[t].Releasing?
       case Broadcast(t) => t in s.workers && s.workers[t].Broadcasting?
       case Done(t) => t in s.workers && s.workers[t].Released? && s.workers[t].g in s.groups
       case WaitPasses(w, g) => w !in s.waiters && g in s.groups && s.groups[g].wg == 0
       case WaitReturns(w) => w in s.waiters && s.waiters[w] in s.groups
       case Wakeup => true
  }

  /** recordErr: the first error wins and cancels the group's context. */
  function Recorded(g: Fields, e: Error): Fields {
    g.(err := if g.err.None? then Some(e) else g.err, canceled := true, attempts := g.attempts + [e])
  }

  /** Where an Acquire leaves its worker. */
  function AfterAcquire(g: Gid, out: Limiter.Outcome): Worker {
    if out.Acquired? then Holding(g) else if out.MustWait? then Waiting(g) else Refused(g)
  }

  ghost function SemAfter(s: System, e: Event): (Limiter.Sem, Limiter.Outcome)
    requires Enabled(s, e)
  {
    if SemEvent(e).Some? then Limiter.Step(s.sem, SemEvent(e).value) else (s.sem, Limiter.Outcome.Done)
  }

  /** The worker that an event is about. */
  ghost function WorkerOf(e: Event): Option<Tid> {
    match e
    case Go(t, _, _, _) => Some(t)
    case Resume(t, _) => Some(t)
    case TryGo(t, _) => Some(t)
    case Spawn(t) => Some(t)
    case FnReturns(t, _) => Some(t)
    case RecordErr(t) => Some(t)
    case Unlock(t) => Some(t)
    case Broadcast(t) => Some(t)
    case Done(t) => Some(t)
    case _ => None
  }

  /** What becomes of that worker; None when it is gone or never started. */
  ghost function WorkerAfter(s: System, e: Event): Option<Worker>
    requires Enabled(s, e)
  {
    match e
    case Go(t, g, _, _) => Some(AfterAcquire(g, SemAfter(s, e).1))
    case Resume(t, _) => Some(AfterAcquire(s.workers[t].g, SemAfter(s, e).1))
    case TryGo(t, g) => if SemAfter(s, e).1.Acquired? then Some(Holding(g)) else None
    case Spawn(t) => Some(Running(s.workers[t].g))
    case FnReturns(t, err) => Some(if err.Some? then Erred(s.workers[t].g, err.value) else Releasing(s.workers[t].g))
    case RecordErr(t) => if s.workers[t].Refused? then None else Some(Releasing(s.workers[t].g))
    case Unlock(t) => Some(Broadcasting(s.workers[t].g))
    case Broadcast(t) => Some(Released(s.workers[t].g))
    case _ => None
  }

  ghost function WorkersAfter(s: System, e: Event): map<Tid, Worker>
    requires Enabled(s, e)
  {
    if WorkerOf(e).None? then s.workers
    else if WorkerAfter(s, e).Some? then s.workers[WorkerOf(e).value := WorkerAfter(s, e).value]
    else s.workers - {WorkerOf(e).value}
  }

  ghost function GroupsAfter(s: System, e: Event): map<Gid, Fields>
    requires Enabled(s, e)
  {
    match e
    case NewGroup(g) => s.groups[g := Fields(None, false, 0, [])]
    case Spawn(t) => var g := s.workers[t].g; s.groups[g := s.groups[g].(wg := s.groups[g].wg + 1)]
    case RecordErr(t) =>
      var p := s.workers[t];
      s.groups[p.g := Recorded(s.groups[p.g], if p.Refused? then ACQUIRE_FAILED else p.e)]
    case Done(t) => var g := s.workers[t].g; s.groups[g := s.groups[g].(wg := s.groups[g].wg - 1)]
    case WaitReturns(w) => var g := s.waiters[w]; s.groups[g := s.groups[g].(canceled := true)]
    case _ => s.groups
  }

  ghost function Step(s: System, e: Event): System
    requires Enabled(s, e)
  {
    System(
      SemAfter(s, e).0,
      GroupsAfter(s, e),
      WorkersAfter(s, e),
      match e
      case WaitPasses(w, g) => s.waiters[w := g]
      case WaitReturns(w) => s.waiters - {w}
      case _ => s.waiters,
      if e.WaitReturns? then s.results + [Result(s.waiters[e.w], s.groups[s.waiters[e.w]].err)] else s.results)
  }

  ghost predicate Init(s: System) {
    Limiter.Init(s.sem) && s == System(s.sem, map[], map[], map[], [])
  }

  ghost predicate Next(s: System, s': System) {
    exists e :: Enabled(s, e) && s' == Step(s, e)
  }

  // ---------- What every run keeps ----------

  ghost function Permit(t: Worker): int { if t.HasPermit() then 1 else 0 }

  /** The weight that counts the workers in one group's wait group. */
  ghost function Member(g: Gid): Worker -> int {
    (t: Worker) => if t.InWaitGroup() && t.g == g then 1 else 0
  }

  /** Permits in flight are exactly the ones that workers hold. */
  ghost predicate PermitsHeld(s: System) {
    s.sem.inFlight == Sum(s.workers, Permit)
  }

  ghost predicate WaitGroupsCount(s: System) {
    && (forall g | g in s.groups :: s.groups[g].wg == Sum(s.workers, Member(g)))
    && (forall t | t in s.workers :: s.workers[t].g in s.groups)
  }

  /** The semaphore's sleeping and owing callers are the groups' own workers. */
  ghost predicate CallsMatch(s: System) {
    && (forall c | c in s.sem.calls ::
          && c in s.workers
          && if s.sem.calls[c].Owing? then s.workers[c].Broadcasting?
             else s.workers[c].Waiting? && s.sem.calls[c].n == 1)
    && (forall t | t in s.workers && (s.workers[t].Waiting? || s.workers[t].Broadcasting?) :: t in s.sem.calls)
  }

  /** A group's error is the first one recorded, and no Wait has returned a
      different one. */
  ghost predicate FirstErrorStands(s: System) {
    && (forall g | g in s.groups :: ErrIsFirst(s.groups[g]))
    && (forall r | r in s.results :: r.g in s.groups && (r.err.Some? ==> r.err == s.groups[r.g].err))
    && (forall w | w in s.waiters :: s.waiters[w] in s.groups)
  }

  ghost predicate Inv(s: System) {
    && Limiter.Inv(s.sem)
    && PermitsHeld(s)
    && WaitGroupsCount(s)
    && CallsMatch(s)
    && FirstErrorStands(s)
  }

  ghost function WeightAt(workers: map<Tid, Worker>, t: Tid, w: Worker -> int): int {
    if t in workers then w(workers[t]) else 0
  }

  /** An event moves at most one worker, so a sum changes by that worker's weight. */
  lemma SumMoves(s: System, e: Event, w: Worker -> int)
    requires Enabled(s, e)
    ensures WorkerOf(e).None? ==> WorkersAfter(s, e) == s.workers
    ensures WorkerOf(e).Some? ==>
      var t := WorkerOf(e).value;
      Sum(WorkersAfter(s, e), w) == Sum(s.workers, w) + WeightAt(WorkersAfter(s, e), t, w) - WeightAt(s.workers, t, w)
  {
    if WorkerOf(e).Some? {
      var t := WorkerOf(e).value;
      if WorkerAfter(s, e).Some? {
        SumUpdate(s.workers, t, WorkerAfter(s, e).value, w);
      } else if t in s.workers {
        SumRemove(s.workers, t, w);
      } else {
        assert s.workers - {t} == s.workers;
      }
    }
  }

  lemma ReleaserHasPermit(s: System, t: Tid)
    requires PermitsHeld(s) && t in s.workers && s.workers[t].HasPermit()
    ensures s.sem.inFlight >= 1
  {
    SumBounds(s.workers, Permit);
    assert Permit(s.workers[t]) <= s.sem.inFlight;
  }

  lemma StepKeepsPermits(s: System, e: Event)
    requires PermitsHeld(s) && CallsMatch(s) && Enabled(s, e)
    ensures PermitsHeld(Step(s, e))
  {
    SumMoves(s, e, Permit);
    if e.Unlock? {
      ReleaserHasPermit(s, e.t);
    }
  }

  /** A group's counter follows the membership of the worker that moves. */
  lemma CounterFollowsWorker(s: System, e: Event, g: Gid)
    requires Enabled(s, e) && g in s.groups && (forall t | t in s.workers :: s.workers[t].g in s.groups)
    ensures g in GroupsAfter(s, e)
    ensures GroupsAfter(s, e)[g].wg == s.groups[g].wg +
      if WorkerOf(e).None? then 0
      else
        WeightAt(WorkersAfter(s, e), WorkerOf(e).value, Member(g)) -
        WeightAt(s.workers, WorkerOf(e).value, Member(g))
  {
  }

  lemma StepKeepsWaitGroups(s: System, e: Event)
    requires WaitGroupsCount(s) && Enabled(s, e)
    ensures WaitGroupsCount(Step(s, e))
  {
    forall g | g in GroupsAfter(s, e)
      ensures GroupsAfter(s, e)[g].wg == Sum(WorkersAfter(s, e), Member(g))
    {
      if g in s.groups {
        SumMoves(s, e, Member(g));
        CounterFollowsWorker(s, e, g);
      } else {
        assert e == NewGroup(g);
        SumZero(s.workers, Member(g));
      }
    }
    WorkersStayInGroups(s, e);
  }

  lemma WorkersStayInGroups(s: System, e: Event)
    requires (forall t | t in s.workers :: s.workers[t].g in s.groups) && Enabled(s, e)
    ensures forall t | t in WorkersAfter(s, e) :: WorkersAfter(s, e)[t].g in GroupsAfter(s, e)
  {
    assert s.groups.Keys <= GroupsAfter(s, e).Keys;
    assert WorkerOf(e).Some? && WorkerAfter(s, e).Some? ==> WorkerAfter(s, e).value.g in s.groups;
  }

  lemma StepKeepsCalls(s: System, e: Event)
    requires PermitsHeld(s) && CallsMatch(s) && Enabled(s, e)
    ensures CallsMatch(Step(s, e))
  {
    if e.Unlock? {
      ReleaserHasPermit(s, e.t);
    }
    match e
    case Go(_, _, _, _) => AcquireKeepsCalls(s, e);
    case Resume(_, _) => AcquireKeepsCalls(s, e);
    case _ =>
  }

  lemma AcquireKeepsCalls(s: System, e: Event)
    requires CallsMatch(s) && Enabled(s, e) && (e.Go? || e.Resume?)
    ensures CallsMatch(Step(s, e))
  {
    var calls', out := SemAfter(s, e).0.calls, SemAfter(s, e).1;
    assert calls' == if out.MustWait? then s.sem.calls[e.t := Limiter.Asleep(1)] else s.sem.calls - {e.t};
  }

  ghost predicate ErrIsFirst(g: Fields) {
    g.err == if g.attempts == [] then None else Some(g.attempts[0])
  }

  /** Errors of groups are only ever set once. */
  lemma GroupsKeepErrors(s: System, e: Event)
    requires Enabled(s, e) && forall g | g in s.groups :: ErrIsFirst(s.groups[g])
    ensures forall g | g in GroupsAfter(s, e) :: ErrIsFirst(GroupsAfter(s, e)[g])
    ensures forall g | g in s.groups ::
      g in GroupsAfter(s, e) && (s.groups[g].err.Some? ==> GroupsAfter(s, e)[g].err == s.groups[g].err)
  {
  }

  lemma StepKeepsErrors(s: System, e: Event)
    requires FirstErrorStands(s) && Enabled(s, e)
    ensures FirstErrorStands(Step(s, e))
  {
    GroupsKeepErrors(s, e);
  }

  lemma StepKeepsInv(s: System, e: Event)
    requires Inv(s) && Enabled(s, e)
    ensures Inv(Step(s, e))
  {
    if SemEvent(e).Some? {
      Limiter.StepKeepsInv(s.sem, SemEvent(e).value);
    }
    StepKeepsPermits(s, e);
    StepKeepsWaitGroups(s, e);
    StepKeepsCalls(s, e);
    StepKeepsErrors(s, e);
  }

  lemma RunsKeepInv(run: seq<System>)
    requires Behavior(Init, Next, run)
    ensures forall i | 0 <= i < |run| :: Inv(run[i])
  {
    forall s, s' | Inv(s) && Next(s, s')
      ensures Inv(s')
    {
      var e :| Enabled(s, e) && s' == Step(s, e);
      StepKeepsInv(s, e);
    }
    Invariance(Init, Next, Inv, run);
  }

  /** Permit conservation across any number of groups: in every state the
      permits in flight are the ones held by spawners and by goroutines that
      have not released, within capacity, and no sleeper is forgotten. */
  lemma SharedPermitsAreConserved(run: seq<System>, i: nat)
    requires Behavior(Init, Next, run) && i < |run|
    ensures PermitsHeld(run[i]) && 0 <= run[i].sem.inFlight <= run[i].sem.capacity
    ensures Limiter.NoLostWakeup(run[i].sem)
    ensures forall g | g in run[i].groups :: run[i].groups[g].wg == Sum(run[i].workers, Member(g))
  {
    RunsKeepInv(run);
    assert Inv(run[i]);
  }

  /** Once every wait group is empty and no Go is in progress, all permits are
      back. */
  lemma IdleGroupsHoldNothing(run: seq<System>, i: nat)
    requires Behavior(Init, Next, run) && i < |run|
    requires forall g | g in run[i].groups :: run[i].groups[g].wg == 0
    requires forall t | t in run[i].workers :: !run[i].workers[t].Holding?
    ensures run[i].sem.inFlight == 0
  {
    RunsKeepInv(run);
    var s := run[i];
    assert Inv(s);
    forall t | t in s.workers
      ensures Permit(s.workers[t]) == 0
    {
      var g := s.workers[t].g;
      SumBounds(s.workers, Member(g));
      assert Member(g)(s.workers[t]) <= s.groups[g].wg;
    }
    SumZero(s.workers, Permit);
  }

  // ---------- Nobody is stranded ----------

  /** The next step of a Go call or goroutine is possible, and its Release does
      not panic; a call inside Acquire may have to sleep. */
  ghost predicate CanMove(s: System, t: Tid)
    requires t in s.workers
  {
    match s.workers[t]
    case Waiting(_) => t in s.sem.calls && (s.sem.calls[t].Asleep? || Enabled(s, Resume(t, true)))
    case Refused(_) => Enabled(s, RecordErr(t))
    case Holding(_) => Enabled(s, Spawn(t))
    case Running(_) => forall err :: Enabled(s, FnReturns(t, err))
    case Erred(_, _) => Enabled(s, RecordErr(t))
    case Releasing(_) => Enabled(s, Unlock(t)) && SemAfter(s, Unlock(t)).1 == Limiter.Outcome.Done
    case Broadcasting(_) => Enabled(s, Broadcast(t))
    case Released(_) => Enabled(s, Done(t))
  }

  lemma WorkersCanMove(s: System, t: Tid)
    requires PermitsHeld(s) && CallsMatch(s) && WaitGroupsCount(s) && t in s.workers
    ensures CanMove(s, t)
  {
    var p := s.workers[t];
    assert p.g in s.groups;
    if p.Releasing? {
      ReleaserCanMove(s, t);
    } else if p.Waiting? || p.Broadcasting? {
      SleeperCanMove(s, t);
    } else {
      OthersCanMove(s, t);
    }
  }

  lemma OthersCanMove(s: System, t: Tid)
    requires t in s.workers && s.workers[t].g in s.groups
    requires !s.workers[t].Releasing? && !s.workers[t].Waiting? && !s.workers[t].Broadcasting?
    ensures CanMove(s, t)
  {
  }

  lemma ReleaserCanMove(s: System, t: Tid)
    requires PermitsHeld(s) && CallsMatch(s) && t in s.workers && s.workers[t].Releasing?
    ensures CanMove(s, t)
  {
    ReleaserHasPermit(s, t);
    assert t !in s.sem.calls;
  }

  lemma SleeperCanMove(s: System, t: Tid)
    requires CallsMatch(s) && t in s.workers && s.workers[t].g in s.groups
    requires s.workers[t].Waiting? || s.workers[t].Broadcasting?
    ensures CanMove(s, t)
  {
    assert t in s.sem.calls;
  }

  /** Every Go call and goroutine can go on, unless it sleeps in Acquire; and
      while one sleeps there, another one has a permit that it will give back,
      or still owes the Broadcast for one. */
  lemma NobodyIsStranded(run: seq<System>, i: nat, t: Tid)
    requires Behavior(Init, Next, run) && i < |run| && t in run[i].workers
    ensures CanMove(run[i], t)
    ensures t in run[i].sem.calls && run[i].sem.calls[t].Asleep? ==>
      exists u | u in run[i].workers :: u != t && (run[i].workers[u].HasPermit() || run[i].workers[u].Broadcasting?)
  {
    RunsKeepInv(run);
    var s := run[i];
    assert Inv(s);
    WorkersCanMove(s, t);
    if t in s.sem.calls && s.sem.calls[t].Asleep? {
      if r :| r in s.sem.calls && s.sem.calls[r].Owing? {
        assert s.workers[r].Broadcasting?;
      } else {
        assert s.sem.inFlight >= 1;
        var u := PermitHolder(s);
      }
    }
  }

  lemma PermitHolder(s: System) returns (u: Tid)
    requires PermitsHeld(s) && s.sem.inFlight != 0
    ensures u in s.workers && s.workers[u].HasPermit()
  {
    if u' :| u' in s.workers && s.workers[u'].HasPermit() {
      u := u';
    } else {
      SumZero(s.workers, Permit);
    }
  }

  // ---------- What Wait returns ----------

  /** Once a Wait has returned an error, every later Wait of that group has
      returned the same. */
  ghost predicate ErrorsPersist(results: seq<Result>) {
    forall a, b | 0 <= a < b < |results| && results[a].g == results[b].g && results[a].err.Some? ::
      results[b].err == results[a].err
  }

  lemma StepKeepsResults(s: System, e: Event)
    requires FirstErrorStands(s) && ErrorsPersist(s.results) && Enabled(s, e)
    ensures ErrorsPersist(Step(s, e).results)
  {
    assert forall a | 0 <= a < |s.results| :: s.results[a] in s.results;
  }

  lemma {:induction false} ErrorsPersistInRuns(run: seq<System>, i: nat)
    requires Behavior(Init, Next, run) && i < |run|
    ensures ErrorsPersist(run[i].results)
  {
    if i > 0 {
      ErrorsPersistInRuns(run, i - 1);
      RunsKeepInv(run);
      assert Inv(run[i - 1]);
      assert Next(run[i - 1], run[i - 1 + 1]);
      var e :| Enabled(run[i - 1], e) && run[i] == Step(run[i - 1], e);
      StepKeepsResults(run[i - 1], e);
    }
  }

  /** An error that a Wait returned is what every later Wait of the group
      returns, and it is the first one recorded. */
  lemma WaitErrorsAreStable(run: seq<System>, i: nat, a: nat, b: nat)
    requires Behavior(Init, Next, run) && i < |run|
    requires a < b < |run[i].results| && run[i].results[a].g == run[i].results[b].g
    ensures run[i].results[a].err.Some? ==> run[i].results[b].err == run[i].results[a].err
    ensures var r := run[i].results[b];
            && r.g in run[i].groups
            && (r.err.Some? ==>
                  run[i].groups[r.g].attempts != [] && r.err.value == run[i].groups[r.g].attempts[0])
  {
    RunsKeepInv(run);
    ErrorsPersistInRuns(run, i);
    assert Inv(run[i]);
    assert run[i].results[b] in run[i].results;
  }

  /** The error that a function returns is the one that its goroutine records
      next, and the group keeps it unless it already has one. Only then does the
      goroutine give its permit back. */
  lemma FnErrorReachesGroup(run: seq<System>, i: nat, t: Tid, e: Error)
    requires Behavior(Init, Next, run) && i < |run| && Enabled(run[i], FnReturns(t, Some(e)))
    ensures var s, s1 := run[i], Step(run[i], FnReturns(t, Some(e)));
            && s1.groups == s.groups && s1.sem == s.sem && Enabled(s1, RecordErr(t))
            && var s2, g := Step(s1, RecordErr(t)), s.workers[t].g;
               && g in s.groups && g in s2.groups && s2.groups[g].canceled && s2.groups[g].wg == s.groups[g].wg
               && s2.groups[g].err == (if s.groups[g].err.None? then Some(e) else s.groups[g].err)
               && s2.workers == s.workers[t := Releasing(g)] && s2.sem == s.sem
  {
    RunsKeepInv(run);
    assert Inv(run[i]);
    FnErrorIsKept(run[i], t, e);
    ErrorIsRecorded(Step(run[i], FnReturns(t, Some(e))), t);
  }

  lemma FnErrorIsKept(s: System, t: Tid, e: Error)
    requires Enabled(s, FnReturns(t, Some(e))) && s.workers[t].g in s.groups
    ensures var s1 := Step(s, FnReturns(t, Some(e)));
            && s1.groups == s.groups && s1.sem == s.sem && s1.workers == s.workers[t := Erred(s.workers[t].g, e)]
  {
  }

  lemma ErrorIsRecorded(s: System, t: Tid)
    requires t in s.workers && s.workers[t].Erred? && s.workers[t].g in s.groups
    ensures Enabled(s, RecordErr(t))
    ensures var s', g := Step(s, RecordErr(t)), s.workers[t].g;
            && g in s'.groups && s'.groups[g].canceled && s'.groups[g].wg == s.groups[g].wg
            && s'.groups[g].err == (if s.groups[g].err.None? then Some(s.workers[t].e) else s.groups[g].err)
            && s'.workers == s.workers[t := Releasing(g)] && s'.sem == s.sem
  {
  }

  lemma RunGrows(run: seq<System>, e: Event, s: System)
    requires Behavior(Init, Next, run) && Enabled(run[|run| - 1], e) && s == Step(run[|run| - 1], e)
    ensures Behavior(Init, Next, run + [s])
  {
    BehaviorGrows(Init, Next, run, s);
  }

  lemma FirstWaitReturnsNil(capacity: nat) returns (run: seq<System>)
    requires capacity >= 1
    ensures Behavior(Init, Next, run)
    ensures run[|run| - 1] == System(Limiter.Sem(capacity, 0, 0, 0, 0, map[]), map[0 := Fields(None, true, 0, [])],
                                     map[], map[], [Result(0, None)])
  {
    var s0 := System(Limiter.Sem(capacity, 0, 0, 0, 0, map[]), map[], map[], map[], []);
    var s1 := s0.(groups := map[0 := Fields(None, false, 0, [])]);
    var s2 := s1.(waiters := map[0 := 0]);
    var s3 := s0.(groups := map[0 := Fields(None, true, 0, [])], results := [Result(0, None)]);
    run := [s0];
    RunGrows(run, NewGroup(0), s1);
    RunGrows(run + [s1], WaitPasses(0, 0), s2);
    assert s2.waiters - {0} == map[];
    RunGrows(run + [s1] + [s2], WaitReturns(0), s3);
    run := run + [s1] + [s2] + [s3];
  }

  lemma LaterGoRecordsError(capacity: nat) returns (run: seq<System>)
    requires capacity >= 1
    ensures Behavior(Init, Next, run)
    ensures run[|run| - 1] == System(Limiter.Sem(capacity, 0, 0, 0, 0, map[]),
                                     map[0 := Fields(Some(ACQUIRE_FAILED), true, 0, [ACQUIRE_FAILED])],
                                     map[], map[], [Result(0, None)])
  {
    run := FirstWaitReturnsNil(capacity);
    var s3 := run[|run| - 1];
    var s4 := s3.(workers := map[1 := Refused(0)]);
    var s5 := s3.(groups := map[0 := Fields(Some(ACQUIRE_FAILED), true, 0, [ACQUIRE_FAILED])]);
    RunGrows(run, Go(1, 0, true, true), s4);
    assert Recorded(s4.groups[0], ACQUIRE_FAILED) == s5.groups[0];
    assert WorkersAfter(s4, RecordErr(1)) == map[];
    RunGrows(run + [s4], RecordErr(1), s5);
    run := run + [s4] + [s5];
  }

  /** A nil result is not stable: the first Wait cancels the context, so that a
      later Go on the same group records an error for the next Wait. */
  lemma NilWaitIsNotStable(capacity: nat) returns (run: seq<System>)
    requires capacity >= 1
    ensures Behavior(Init, Next, run)
    ensures run[|run| - 1].results == [Result(0, None), Result(0, Some(ACQUIRE_FAILED))]
  {
    run := LaterGoRecordsError(capacity);
    var s5 := run[|run| - 1];
    var s6 := s5.(waiters := map[0 := 0]);
    var s7 := s5.(results := [Result(0, None), Result(0, Some(ACQUIRE_FAILED))]);
    RunGrows(run, WaitPasses(0, 0), s6);
    assert s6.waiters - {0} == map[];
    RunGrows(run + [s6], WaitReturns(0), s7);
    run := run + [s6] + [s7];
  }

  // ---------- The group object ----------

  class Group {
    const sem: Limiter.Semaphore
    var err: Option<Error>
    var canceled: bool
    var wg: nat
    ghost var attempts: seq<Error>

    ghost function View(): Fields reads this { Fields(err, canceled, wg, attempts) }

    ghost predicate Valid() reads this { ErrIsFirst(View()) && (err.Some? ==> canceled) }

    constructor (sem: Limiter.Semaphore)
      ensures Valid() && View() == Fields(None, false, 0, []) && this.sem == sem
    {
      this.sem := sem;
      err, canceled, wg, attempts := None, false, 0, [];
    }

    /** The first error is kept and cancels the context; later ones are not. */
    method RecordErr(e: Error)
      requires Valid()
      modifies this
      ensures Valid() && View() == Recorded(old(View()), e)
      ensures err == (if old(err).None? then Some(e) else old(err)) && canceled && wg == old(wg)
    {
      if err.None? {
        err := Some(e);
        canceled := true;
      }
      attempts := attempts + [e];
    }

    /** What Go does when its Acquire has come this far. */
    method AfterTurn(out: Limiter.Outcome)
      requires Valid()
      modifies this
      ensures Valid()
      ensures View() == match out
                        case Acquired => old(View()).(wg := old(wg) + 1)
                        case Failed => Recorded(old(View()), ACQUIRE_FAILED)
                        case _ => old(View())
    {
      if out.Failed? {
        RecordErr(ACQUIRE_FAILED);
      } else if out.Acquired? {
        wg := wg + 1;
      }
    }

    /** Go up to the first wait of its Acquire: it joins the wait group with a
        permit, records that it got none, or sleeps. The group's context has
        ended when the group is canceled or the parent context has ended. */
    method Go(c: Tid, parentEnded: bool, parentEndsNow: bool) returns (out: Limiter.Outcome)
      requires Valid() && c !in sem.calls
      modifies this, sem
      ensures Valid()
      ensures (sem.View(), out) ==
        Limiter.Step(old(sem.View()), Limiter.Enter(c, 1, old(canceled) || parentEnded, old(canceled) || parentEndsNow))
      ensures View() == if out.Acquired? then old(View()).(wg := old(wg) + 1)
                        else if out.Failed? then Recorded(old(View()), ACQUIRE_FAILED)
                        else old(View())
      ensures old(canceled) ==> out.Failed?
    {
      out := sem.Enter(c, 1, canceled || parentEnded, canceled || parentEndsNow);
      AfterTurn(out);
    }

    /** Go when its Acquire has been woken; a permit that is free is taken even
        when the context has ended. */
    method Resume(c: Tid, parentEnded: bool) returns (out: Limiter.Outcome)
      requires Valid() && c in sem.calls && sem.calls[c] == Limiter.Awake(1)
      modifies this, sem
      ensures Valid()
      ensures (sem.View(), out) == Limiter.Step(old(sem.View()), Limiter.Recheck(c, old(canceled) || parentEnded))
      ensures View() == if out.Acquired? then old(View()).(wg := old(wg) + 1)
                        else if out.Failed? then Recorded(old(View()), ACQUIRE_FAILED)
                        else old(View())
      ensures old(canceled) ==> !out.MustWait?
    {
      out := sem.Recheck(c, 1, canceled || parentEnded);
      AfterTurn(out);
    }

    /** TryGo joins the wait group exactly when a permit was free. */
    method TryGo() returns (ok: bool)
      requires Valid()
      modifies this, sem
      ensures Valid() && sem.View() == Limiter.Step(old(sem.View()), Limiter.Try(1)).0
      ensures ok == (old(sem.inFlight) + 1 <= sem.capacity)
      ensures View() == old(View()).(wg := old(wg) + if ok then 1 else 0)
    {
      ok := sem.TryAcquireN(1);
      if ok {
        wg := wg + 1;
      }
    }

    /** run, from the return of the function to the Unlock inside Release. */
    method FnReturned(c: Tid, e: Option<Error>) returns (out: Limiter.Outcome)
      requires Valid() && c !in sem.calls
      modifies this, sem
      ensures Valid() && View() == if e.Some? then Recorded(old(View()), e.value) else old(View())
      ensures err == if old(err).None? then e else old(err)
      ensures wg == old(wg) && canceled == (old(canceled) || e.Some?)
      ensures sem.inFlight == old(sem.inFlight) - (if out.Panicked? then 0 else 1)
      ensures (sem.View(), out) == Limiter.Step(old(sem.View()), Limiter.Unlock(c, 1))
    {
      if e.Some? {
        RecordErr(e.value);
      }
      out := sem.ReleaseLocked(c, 1);
    }

    method Done()
      requires Valid() && wg > 0
      modifies this`wg
      ensures Valid() && View() == old(View()).(wg := old(wg) - 1)
    {
      wg := wg - 1;
    }

    /** Wait, once wg.Wait has returned: it cancels even when all went well. */
    method Wait() returns (r: Option<Error>)
      requires Valid() && wg == 0
      modifies this`canceled
      ensures Valid() && View() == old(View()).(canceled := true)
      ensures r == if attempts == [] then None else Some(attempts[0])
    {
      canceled := true;
      return err;
    }
  }
}
