// internal/scheduler: RunDue and run, with any number of concurrent callers.
//
// Collecting, claiming, advancing the due time, joining the wait group and
// spawning are separate steps of a RunDue call, and so are the deferred steps
// at the end of an invocation. Entries have an identity of their own: a
// replaced entry lives on until its invocation has ended. The permits are
// those of module Limiter.

module SchedulerRuns {
  import opened Common
  import opened Scheduler
  import Limiter

  type EntryId = nat
  type CallId = nat
  type RunId = nat

  datatype Item = Item(name: string, interval: int, nextDue: Option<int>, running: bool)

  /** A RunDue call: the entries it still has to look at, and the invocation it
      is starting. */
  datatype Call = Call(now: int, todo: seq<EntryId>, current: Option<RunId>)

  datatype Phase =
    | Claimed
    | Advanced
    | Added                   // in the wait group, not spawned yet
    | Spawned
    | Waiting                 // inside Acquire
    | Working(permit: bool)   // in the job's function
    | Refused                 // Acquire failed
    | Releasing               // the function has returned or panicked
    | Broadcasting
    | Finishing               // about to clear the running flag
    | Leaving                 // about to leave the wait group

  /** An invocation of an entry, from its claim to its wg.Done. */
  datatype Invocation = Invocation(entry: EntryId, caller: CallId, phase: Phase) {
    predicate Starting() { phase.Claimed? || phase.Advanced? || phase.Added? }

    predicate HoldsFlag() { !phase.Leaving? }

    predicate InWaitGroup() { !phase.Claimed? && !phase.Advanced? }

    predicate HasPermit() { phase == Working(true) || phase.Releasing? }
  }

  datatype State = State(
    items: map<EntryId, Item>,
    jobs: map<string, EntryId>,
    calls: map<CallId, Call>,
    runs: map<RunId, Invocation>,
    wg: int,
    limited: bool,
    sem: Limiter.Sem)

  datatype Event =
    | Register(name: string, e: EntryId, interval: int, first: int)
    | Remove(name: string)
    | Collect(c: CallId, now: int, due: seq<EntryId>)
    | Skip(c: CallId)
    | Claim(c: CallId, r: RunId)
    | Advance(r: RunId)
    | Add(r: RunId)
    | Spawn(r: RunId)
    | Return(c: CallId)
    | Begin(r: RunId)                                     // without a limiter
    | Acquire(r: RunId, refused: bool, canceled: bool)
    | Resume(r: RunId, canceled: bool)
    | Report(r: RunId)
    | FuncEnds(r: RunId)                                  // by return, error or panic
    | Unlock(r: RunId)
    | Broadcast(r: RunId)
    | ClearFlag(r: RunId)
    | WgDone(r: RunId)
    | Wakeup

  ghost predicate At(s: State, r: RunId, phase: Phase) {
    r in s.runs && s.runs[r].phase == phase && s.runs[r].entry in s.items
  }

  function SemEvent(e: Event): Option<Limiter.Event> {
    match e
    case Acquire(r, refused, canceled) => Some(Limiter.Enter(r, 1, refused, canceled))
    case Resume(r, canceled) => Some(Limiter.Recheck(r, canceled))
    case Unlock(r) => Some(Limiter.Unlock(r, 1))
    case Broadcast(r) => Some(Limiter.Broadcast(r))
    case Wakeup => Some(Limiter.Wakeup)
    case _ => None
  }

  ghost predicate StepOfCaller(s: State, r: RunId) {
    r in s.runs && s.runs[r].caller in s.calls && s.calls[s.runs[r].caller].current == Some(r)
  }

  ghost predicate Enabled(s: State, e: Event) {
    && (SemEvent(e).Some? ==> Limiter.Enabled(s.sem, SemEvent(e).value))
    && match e
       case Register(name, e, interval, _) => e !in s.items && name != ""
       case Remove(name) => name in s.jobs
       case Collect(c, now, due) =>
         // which due entries it finds running depends on the instants of its loads
         && c !in s.calls
         && (forall id | id in due :: id in s.jobs.Values && id in s.items && Due(s.items[id].nextDue, now))
         && (forall i, j | 0 <= i < j < |due| :: due[i] != due[j])
       case Skip(c) => Choosing(s, c) && s.items[s.calls[c].todo[0]].running
       case Claim(c, r) => Choosing(s, c) && !s.items[s.calls[c].todo[0]].running && r !in s.runs
       case Advance(r) => At(s, r, Claimed) && StepOfCaller(s, r)
       case Add(r) => At(s, r, Advanced) && StepOfCaller(s, r)
       case Spawn(r) => At(s, r, Added) && StepOfCaller(s, r)
       case Return(c) => c in s.calls && s.calls[c].todo == [] && s.calls[c].current.None?
       case Begin(r) => At(s, r, Spawned) && !s.limited
       case Acquire(r, _, _) => At(s, r, Spawned) && s.limited
       case Resume(r, _) => At(s, r, Waiting)
       case Report(r) => At(s, r, Refused)
       case FuncEnds(r) => At(s, r, Working(s.limited))
       case Unlock(r) => At(s, r, Releasing)
       case Broadcast(r) => At(s, r, Broadcasting)
       case ClearFlag(r) => At(s, r, Finishing)
       case WgDone(r) => At(s, r, Leaving)
       case Wakeup => true
  }

  ghost predicate Choosing(s: State, c: CallId) {
    c in s.calls && s.calls[c].current.None? && s.calls[c].todo != [] && s.calls[c].todo[0] in s.items
  }

  ghost function SemAfter(s: State, e: Event): (Limiter.Sem, Limiter.Outcome)
    requires Enabled(s, e)
  {
    if SemEvent(e).Some? then Limiter.Step(s.sem, SemEvent(e).value) else (s.sem, Limiter.Outcome.Done)
  }

  /** The invocation that an event is about. */
  function RunOf(e: Event): Option<RunId> {
    match e
    case Claim(_, r) => Some(r)
    case Advance(r) => Some(r)
    case Add(r) => Some(r)
    case Spawn(r) => Some(r)
    case Begin(r) => Some(r)
    case Acquire(r, _, _) => Some(r)
    case Resume(r, _) => Some(r)
    case Report(r) => Some(r)
    case FuncEnds(r) => Some(r)
    case Unlock(r) => Some(r)
    case Broadcast(r) => Some(r)
    case ClearFlag(r) => Some(r)
    case WgDone(r) => Some(r)
    case _ => None
  }

  function AfterAcquire(out: Limiter.Outcome): Phase {
    if out.Acquired? then Working(true) else if out.MustWait? then Waiting else Refused
  }

  /** Where that invocation is then. */
  ghost function PhaseAfter(s: State, e: Event): Phase
    requires Enabled(s, e)
  {
    match e
    case Advance(_) => Advanced
    case Add(_) => Added
    case Spawn(_) => Spawned
    case Begin(_) => Working(false)
    case Acquire(_, _, _) => AfterAcquire(SemAfter(s, e).1)
    case Resume(_, _) => AfterAcquire(SemAfter(s, e).1)
    case FuncEnds(_) => if s.limited then Releasing else Finishing
    case Unlock(_) => Broadcasting
    case Report(_) => Finishing
    case Broadcast(_) => Finishing
    case ClearFlag(_) => Leaving
    case _ => Claimed
  }

  ghost function RunAfter(s: State, e: Event): Invocation
    requires Enabled(s, e) && RunOf(e).Some?
  {
    if e.Claim? then Invocation(s.calls[e.c].todo[0], e.c, Claimed)
    else s.runs[RunOf(e).value].(phase := PhaseAfter(s, e))
  }

  ghost function RunsAfter(s: State, e: Event): map<RunId, Invocation>
    requires Enabled(s, e)
  {
    if RunOf(e).None? then s.runs
    else if e.WgDone? then s.runs - {e.r}
    else s.runs[RunOf(e).value := RunAfter(s, e)]
  }

  ghost function ItemsAfter(s: State, e: Event): map<EntryId, Item>
    requires Enabled(s, e)
  {
    match e
    case Register(name, id, interval, first) => s.items[id := Item(name, interval, Some(first), false)]
    case Claim(c, _) => var id := s.calls[c].todo[0]; s.items[id := s.items[id].(running := true)]
    case Advance(r) =>
      var id := s.runs[r].entry;
      s.items[id := s.items[id].(nextDue := NextAfter(s.items[id].interval, s.calls[s.runs[r].caller].now))]
    case ClearFlag(r) => var id := s.runs[r].entry; s.items[id := s.items[id].(running := false)]
    case _ => s.items
  }

  ghost function CallsAfter(s: State, e: Event): map<CallId, Call>
    requires Enabled(s, e)
  {
    match e
    case Collect(c, now, due) => s.calls[c := Call(now, due, None)]
    case Skip(c) => s.calls[c := s.calls[c].(todo := s.calls[c].todo[1..])]
    case Claim(c, r) => s.calls[c := s.calls[c].(todo := s.calls[c].todo[1..], current := Some(r))]
    case Spawn(r) => var c := s.runs[r].caller; s.calls[c := s.calls[c].(current := None)]
    case Return(c) => s.calls - {c}
    case _ => s.calls
  }

  ghost function Step(s: State, e: Event): State
    requires Enabled(s, e)
  {
    State(
      ItemsAfter(s, e),
      match e
      case Register(name, id, _, _) => s.jobs[name := id]
      case Remove(name) => s.jobs - {name}
      case _ => s.jobs,
      CallsAfter(s, e),
      RunsAfter(s, e),
      s.wg + (if e.Add? then 1 else if e.WgDone? then -1 else 0),
      s.limited,
      SemAfter(s, e).0)
  }

  ghost predicate Init(s: State) {
    Limiter.Init(s.sem) && s == State(map[], map[], map[], map[], 0, s.limited, s.sem)
  }

  ghost predicate Next(s: State, s': State) {
    exists e :: Enabled(s, e) && s' == Step(s, e)
  }

  // ---------- What every run keeps ----------

  ghost function Flag(id: EntryId): Invocation -> int {
    (r: Invocation) => if r.HoldsFlag() && r.entry == id then 1 else 0
  }

  ghost function Member(r: Invocation): int { if r.InWaitGroup() then 1 else 0 }

  ghost function Permit(r: Invocation): int { if r.HasPermit() then 1 else 0 }

  /** An entry's running flag counts its claimed invocations. */
  ghost predicate FlagsCount(s: State) {
    forall id | id in s.items :: (if s.items[id].running then 1 else 0) == Sum(s.runs, Flag(id))
  }

  ghost predicate WaitGroupCounts(s: State) { s.wg == Sum(s.runs, Member) }

  ghost predicate PermitsHeld(s: State) { s.sem.inFlight == Sum(s.runs, Permit) }

  ghost predicate LimiterFits(s: State, phase: Phase) {
    (phase.Waiting? ==> s.limited) && (phase.Working? ==> phase.permit == s.limited)
  }

  /** The semaphore's sleeping and owing callers are the waiting and releasing
      invocations; no permits are used without a limiter. */
  ghost predicate SemCallsMatch(s: State) {
    && (forall r | r in s.sem.calls ::
          && r in s.runs
          && if s.sem.calls[r].Owing? then s.runs[r].phase.Broadcasting?
             else s.runs[r].phase.Waiting? && s.sem.calls[r].n == 1)
    && (forall r | r in s.runs && (s.runs[r].phase.Waiting? || s.runs[r].phase.Broadcasting?) :: r in s.sem.calls)
    && (forall r | r in s.runs :: LimiterFits(s, s.runs[r].phase))
  }

  /** A call that is starting an invocation and that invocation know each other. */
  ghost predicate CallersMatch(s: State) {
    && (forall c | c in s.calls && s.calls[c].current.Some? ::
          var r := s.calls[c].current.value;
          r in s.runs && s.runs[r].caller == c && s.runs[r].Starting())
    && (forall r | r in s.runs && s.runs[r].Starting() :: StepOfCaller(s, r))
  }

  /** Whatever refers to an entry refers to one that exists. */
  ghost predicate RefersToItems(s: State) {
    && (forall r | r in s.runs :: s.runs[r].entry in s.items)
    && (forall c, id | c in s.calls && id in s.calls[c].todo :: id in s.items)
    && (forall n | n in s.jobs :: s.jobs[n] in s.items && s.items[s.jobs[n]].name == n)
  }

  ghost predicate Inv(s: State) {
    && Limiter.Inv(s.sem)
    && RefersToItems(s)
    && FlagsCount(s)
    && WaitGroupCounts(s)
    && PermitsHeld(s)
    && SemCallsMatch(s)
    && CallersMatch(s)
  }

  ghost function WeightAt(runs: map<RunId, Invocation>, r: RunId, w: Invocation -> int): int {
    if r in runs then w(runs[r]) else 0
  }

  /** An event moves at most one invocation. */
  lemma SumMoves(s: State, e: Event, w: Invocation -> int)
    requires Enabled(s, e)
    ensures RunOf(e).None? ==> RunsAfter(s, e) == s.runs
    ensures RunOf(e).Some? ==>
      var r := RunOf(e).value;
      Sum(RunsAfter(s, e), w) == Sum(s.runs, w) + WeightAt(RunsAfter(s, e), r, w) - WeightAt(s.runs, r, w)
  {
    if RunOf(e).Some? {
      var r := RunOf(e).value;
      if e.WgDone? {
        SumRemove(s.runs, r, w);
      } else {
        SumUpdate(s.runs, r, RunAfter(s, e), w);
      }
    }
  }

  /** A running flag follows the invocation that moves. */
  lemma FlagFollowsRun(s: State, e: Event, id: EntryId)
    requires FlagsCount(s) && Enabled(s, e) && id in s.items
    ensures id in ItemsAfter(s, e)
    ensures (if ItemsAfter(s, e)[id].running then 1 else 0) == (if s.items[id].running then 1 else 0) +
      if RunOf(e).None? then 0
      else WeightAt(RunsAfter(s, e), RunOf(e).value, Flag(id)) - WeightAt(s.runs, RunOf(e).value, Flag(id))
  {
    if e.ClearFlag? {
      FlagIsSet(s, e.r);
    } else if !e.Claim? {
      FlagsStay(s, e, id);
      WeightStays(s, e, id);
    }
  }

  lemma FlagIsSet(s: State, r: RunId)
    requires FlagsCount(s) && r in s.runs && s.runs[r].HoldsFlag() && s.runs[r].entry in s.items
    ensures s.items[s.runs[r].entry].running
  {
    SumBounds(s.runs, Flag(s.runs[r].entry));
    assert Flag(s.runs[r].entry)(s.runs[r]) == 1;
  }

  /** Only a claim and the deferred store touch the flag. */
  lemma FlagsStay(s: State, e: Event, id: EntryId)
    requires Enabled(s, e) && id in s.items && !e.Claim? && !e.ClearFlag?
    ensures id in ItemsAfter(s, e) && ItemsAfter(s, e)[id].running == s.items[id].running
  {
  }

  lemma WeightStays(s: State, e: Event, id: EntryId)
    requires Enabled(s, e) && !e.Claim? && !e.ClearFlag?
    ensures RunOf(e).Some? ==>
      WeightAt(RunsAfter(s, e), RunOf(e).value, Flag(id)) == WeightAt(s.runs, RunOf(e).value, Flag(id))
  {
  }

  lemma StepKeepsFlags(s: State, e: Event)
    requires FlagsCount(s) && RefersToItems(s) && Enabled(s, e)
    ensures FlagsCount(Step(s, e))
  {
    forall id | id in ItemsAfter(s, e)
      ensures (if ItemsAfter(s, e)[id].running then 1 else 0) == Sum(RunsAfter(s, e), Flag(id))
    {
      if id in s.items {
        SumMoves(s, e, Flag(id));
        FlagFollowsRun(s, e, id);
      } else {
        assert e.Register? && e.e == id;
        SumZero(s.runs, Flag(id));
      }
    }
  }

  lemma StepKeepsWaitGroup(s: State, e: Event)
    requires WaitGroupCounts(s) && Enabled(s, e)
    ensures WaitGroupCounts(Step(s, e))
  {
    SumMoves(s, e, Member);
  }

  lemma ReleaserHasPermit(s: State, r: RunId)
    requires PermitsHeld(s) && r in s.runs && s.runs[r].HasPermit()
    ensures s.sem.inFlight >= 1
  {
    SumBounds(s.runs, Permit);
    assert Permit(s.runs[r]) <= s.sem.inFlight;
  }

  /** The semaphore's step is the one that the invocation's phase tells. */
  lemma PermitFollowsRun(s: State, e: Event)
    requires SemCallsMatch(s) && Enabled(s, e) && (e.Unlock? ==> s.sem.inFlight >= 1)
    ensures SemAfter(s, e).0.inFlight == s.sem.inFlight +
      if RunOf(e).None? then 0
      else WeightAt(RunsAfter(s, e), RunOf(e).value, Permit) - WeightAt(s.runs, RunOf(e).value, Permit)
  {
  }

  lemma StepKeepsPermits(s: State, e: Event)
    requires PermitsHeld(s) && SemCallsMatch(s) && Enabled(s, e)
    ensures PermitsHeld(Step(s, e))
  {
    SumMoves(s, e, Permit);
    if e.Unlock? {
      ReleaserHasPermit(s, e.r);
    }
    PermitFollowsRun(s, e);
  }

  lemma StepKeepsSemCalls(s: State, e: Event)
    requires PermitsHeld(s) && SemCallsMatch(s) && Enabled(s, e)
    ensures SemCallsMatch(Step(s, e))
  {
    if e.Unlock? {
      ReleaserHasPermit(s, e.r);
      ReleaseKeepsSemCalls(s, e);
    } else if e.Broadcast? || e.Wakeup? {
      ReleaseKeepsSemCalls(s, e);
    } else if e.Acquire? || e.Resume? {
      AcquireKeepsSemCalls(s, e);
    } else {
      OthersKeepSemCalls(s, e);
    }
  }

  lemma ReleaseKeepsSemCalls(s: State, e: Event)
    requires SemCallsMatch(s) && Enabled(s, e) && (e.Unlock? || e.Broadcast? || e.Wakeup?)
    requires e.Unlock? ==> s.sem.inFlight >= 1
    ensures SemCallsMatch(Step(s, e))
  {
  }

  lemma OthersKeepSemCalls(s: State, e: Event)
    requires SemCallsMatch(s) && Enabled(s, e) && SemEvent(e).None?
    ensures SemCallsMatch(Step(s, e))
  {
    if RunOf(e).Some? {
      PlainMove(s, e);
    }
  }

  /** An invocation that moves without the semaphore neither starts nor stops
      being one of its callers. */
  lemma PlainMove(s: State, e: Event)
    requires Enabled(s, e) && SemEvent(e).None? && RunOf(e).Some?
    ensures RunOf(e).value in s.runs ==>
      !s.runs[RunOf(e).value].phase.Waiting? && !s.runs[RunOf(e).value].phase.Broadcasting?
    ensures !RunAfter(s, e).phase.Waiting? && !RunAfter(s, e).phase.Broadcasting?
    ensures LimiterFits(s, RunAfter(s, e).phase)
  {
  }

  lemma AcquireKeepsSemCalls(s: State, e: Event)
    requires SemCallsMatch(s) && Enabled(s, e) && (e.Acquire? || e.Resume?)
    ensures SemCallsMatch(Step(s, e))
  {
    var calls', out := SemAfter(s, e).0.calls, SemAfter(s, e).1;
    assert calls' == if out.MustWait? then s.sem.calls[e.r := Limiter.Asleep(1)] else s.sem.calls - {e.r};
  }

  lemma StepKeepsCallers(s: State, e: Event)
    requires CallersMatch(s) && Enabled(s, e)
    ensures CallersMatch(Step(s, e))
  {
    if e.Collect? || e.Skip? || e.Claim? || e.Return? {
      CallKeepsCallers(s, e);
    } else if e.Advance? || e.Add? || e.Spawn? {
      StartKeepsCallers(s, e);
    } else {
      OthersKeepCallers(s, e);
    }
  }

  lemma CallKeepsCallers(s: State, e: Event)
    requires CallersMatch(s) && Enabled(s, e) && (e.Collect? || e.Skip? || e.Claim? || e.Return?)
    ensures CallersMatch(Step(s, e))
  {
  }

  lemma StartKeepsCallers(s: State, e: Event)
    requires CallersMatch(s) && Enabled(s, e) && (e.Advance? || e.Add? || e.Spawn?)
    ensures CallersMatch(Step(s, e))
  {
  }

  lemma OthersKeepCallers(s: State, e: Event)
    requires CallersMatch(s) && Enabled(s, e)
    requires !e.Collect? && !e.Skip? && !e.Claim? && !e.Return? && !e.Advance? && !e.Add? && !e.Spawn?
    ensures CallersMatch(Step(s, e))
  {
    if RunOf(e).Some? {
      LaterMove(s, e);
    }
  }

  /** An invocation that has been spawned never starts again. */
  lemma LaterMove(s: State, e: Event)
    requires Enabled(s, e) && RunOf(e).Some? && !e.Claim? && !e.Advance? && !e.Add? && !e.Spawn?
    ensures var r := RunOf(e).value;
            r in s.runs && !s.runs[r].Starting() && (e.WgDone? || !RunAfter(s, e).Starting())
  {
  }

  /** Entries stay and keep their names. */
  lemma ItemsStay(s: State, e: Event)
    requires Enabled(s, e)
    ensures forall id | id in s.items :: id in ItemsAfter(s, e) && ItemsAfter(s, e)[id].name == s.items[id].name
    ensures e.Register? ==> e.e in ItemsAfter(s, e) && ItemsAfter(s, e)[e.e].name == e.name
  {
  }

  /** What a call still has to look at was in the list it collected. */
  lemma TodoShrinks(s: State, e: Event, c: CallId)
    requires Enabled(s, e) && c in CallsAfter(s, e)
    ensures forall id | id in CallsAfter(s, e)[c].todo ::
      (e.Collect? && id in e.due) || (c in s.calls && id in s.calls[c].todo)
  {
  }

  lemma CallsKeepReferences(s: State, e: Event)
    requires Enabled(s, e) && forall c, id | c in s.calls && id in s.calls[c].todo :: id in s.items
    ensures forall c, id | c in CallsAfter(s, e) && id in CallsAfter(s, e)[c].todo :: id in s.items
  {
    forall c, id | c in CallsAfter(s, e) && id in CallsAfter(s, e)[c].todo
      ensures id in s.items
    {
      TodoShrinks(s, e, c);
    }
  }

  lemma RunsKeepReferences(s: State, e: Event)
    requires Enabled(s, e) && forall r | r in s.runs :: s.runs[r].entry in s.items
    ensures forall r | r in RunsAfter(s, e) :: RunsAfter(s, e)[r].entry in s.items
  {
    assert RunOf(e).Some? ==> RunAfter(s, e).entry in s.items;
  }

  lemma StepKeepsReferences(s: State, e: Event)
    requires RefersToItems(s) && Enabled(s, e)
    ensures RefersToItems(Step(s, e))
  {
    ItemsStay(s, e);
    CallsKeepReferences(s, e);
    RunsKeepReferences(s, e);
  }

  lemma StepKeepsInv(s: State, e: Event)
    requires Inv(s) && Enabled(s, e)
    ensures Inv(Step(s, e))
  {
    if SemEvent(e).Some? {
      Limiter.StepKeepsInv(s.sem, SemEvent(e).value);
    }
    StepKeepsReferences(s, e);
    StepKeepsFlags(s, e);
    StepKeepsWaitGroup(s, e);
    StepKeepsPermits(s, e);
    StepKeepsSemCalls(s, e);
    StepKeepsCallers(s, e);
  }

  lemma RunsKeepInv(run: seq<State>)
    requires Behavior(Init, Next, run)
    ensures forall i | 0 <= i < |run| :: Inv(run[i])
  {
    forall s, s' | Inv(s) && Next(s, s')
      ensures Inv(s')
    {
      var e :| Enabled(s, e) && s' == Step(s, e);
      StepKeepsInv(s, e);
    }
    Invariance(Init, Next, Inv, run);
  }

  // ---------- Non-overlap ----------

  lemma TwoWeighMore(runs: map<RunId, Invocation>, a: RunId, b: RunId, w: Invocation -> int)
    requires a in runs && b in runs && a != b
    requires forall r | r in runs :: w(runs[r]) >= 0
    ensures Sum(runs, w) >= w(runs[a]) + w(runs[b])
  {
    SumPick(runs, a, w);
    SumBounds(runs - {a}, w);
    assert (runs - {a})[b] == runs[b];
  }

  lemma SomeoneWeighs(runs: map<RunId, Invocation>, w: Invocation -> int)
    requires Sum(runs, w) != 0
    ensures exists r | r in runs :: w(runs[r]) != 0
  {
    if forall r | r in runs :: w(runs[r]) == 0 {
      SumZero(runs, w);
    }
  }

  /** An entry never has two claimed invocations, and its running flag is set
      exactly while it has one, whatever the RunDue callers do. */
  lemma InvocationsNeverOverlap(run: seq<State>, i: nat, id: EntryId)
    requires Behavior(Init, Next, run) && i < |run| && id in run[i].items
    ensures var s := run[i];
            && (forall a, b | a in s.runs && b in s.runs && a != b ::
                  !(s.runs[a].HoldsFlag() && s.runs[a].entry == id && s.runs[b].HoldsFlag() && s.runs[b].entry == id))
            && (s.items[id].running <==> exists r | r in s.runs :: s.runs[r].HoldsFlag() && s.runs[r].entry == id)
  {
    RunsKeepInv(run);
    var s, w := run[i], Flag(id);
    assert Inv(s);
    forall a, b | a in s.runs && b in s.runs && a != b
      ensures w(s.runs[a]) + w(s.runs[b]) <= 1
    {
      TwoWeighMore(s.runs, a, b, w);
    }
    SumBounds(s.runs, w);
    if s.items[id].running {
      SomeoneWeighs(s.runs, w);
    }
  }

  /** The wait group counts the invocations that have joined it and not left,
      and the permits in use are those between a successful Acquire and its
      Release: none at all without a limiter, never more than the capacity. */
  lemma InvocationsAreCounted(run: seq<State>, i: nat)
    requires Behavior(Init, Next, run) && i < |run|
    ensures WaitGroupCounts(run[i]) && run[i].wg >= 0
    ensures PermitsHeld(run[i]) && 0 <= run[i].sem.inFlight <= run[i].sem.capacity
    ensures Limiter.NoLostWakeup(run[i].sem)
  {
    RunsKeepInv(run);
    assert Inv(run[i]);
    SumBounds(run[i].runs, Member);
  }

  /** A RunDue call never blocks: whatever the others do, it can return, skip
      a running entry, claim an idle one, or go on with the one it claimed. */
  lemma CallersNeverBlock(run: seq<State>, i: nat, c: CallId)
    requires Behavior(Init, Next, run) && i < |run| && c in run[i].calls
    ensures var s, call := run[i], run[i].calls[c];
            if call.current.Some? then call.current.value in s.runs && s.runs[call.current.value].Starting()
            else if call.todo == [] then Enabled(s, Return(c))
            else Choosing(s, c)
  {
    RunsKeepInv(run);
    assert Inv(run[i]);
  }

  /** Nor does an invocation, unless its Acquire sleeps; and its Release never
      finds too few permits out. */
  lemma InvocationsNeverBlock(run: seq<State>, i: nat, r: RunId)
    requires Behavior(Init, Next, run) && i < |run| && r in run[i].runs
    ensures CanMove(run[i], r)
  {
    RunsKeepInv(run);
    assert Inv(run[i]);
    InvMeansCanMove(run[i], r);
  }

  lemma InvMeansCanMove(s: State, r: RunId)
    requires PermitsHeld(s) && SemCallsMatch(s) && CallersMatch(s) && RefersToItems(s) && r in s.runs
    ensures CanMove(s, r)
  {
    assert At(s, r, s.runs[r].phase);
    if s.runs[r].Starting() {
      assert StepOfCaller(s, r);
      StartingCanMove(s, r);
    } else if s.runs[r].phase.Spawned? || s.runs[r].phase.Waiting? {
      AcquiringCanMove(s, r);
    } else if s.runs[r].phase.Releasing? || s.runs[r].phase.Broadcasting? {
      if s.runs[r].phase.Releasing? {
        ReleaserHasPermit(s, r);
      }
      ReleaserCanMove(s, r);
    } else if s.runs[r].phase.Working? {
      WorkerCanMove(s, r);
    } else {
      EnderCanMove(s, r);
    }
  }

  lemma StartingCanMove(s: State, r: RunId)
    requires r in s.runs && At(s, r, s.runs[r].phase) && s.runs[r].Starting() && StepOfCaller(s, r)
    ensures CanMove(s, r)
  {
  }

  lemma AcquiringCanMove(s: State, r: RunId)
    requires r in s.runs && At(s, r, s.runs[r].phase) && SemCallsMatch(s)
    requires s.runs[r].phase.Spawned? || s.runs[r].phase.Waiting?
    ensures CanMove(s, r)
  {
    if s.runs[r].phase.Spawned? {
      assert r !in s.sem.calls;
    }
  }

  lemma ReleaserCanMove(s: State, r: RunId)
    requires r in s.runs && At(s, r, s.runs[r].phase) && (s.runs[r].phase.Releasing? || s.runs[r].phase.Broadcasting?)
    requires if s.runs[r].phase.Broadcasting? then r in s.sem.calls && s.sem.calls[r].Owing? else r !in s.sem.calls
    requires s.runs[r].phase.Releasing? ==> s.sem.inFlight >= 1
    ensures CanMove(s, r)
  {
  }

  lemma WorkerCanMove(s: State, r: RunId)
    requires r in s.runs && At(s, r, s.runs[r].phase) && LimiterFits(s, s.runs[r].phase)
    requires s.runs[r].phase.Working?
    ensures CanMove(s, r)
  {
    assert Enabled(s, FuncEnds(r));
  }

  lemma EnderCanMove(s: State, r: RunId)
    requires r in s.runs && At(s, r, s.runs[r].phase)
    requires var at := s.runs[r].phase; at.Refused? || at.Finishing? || at.Leaving?
    ensures CanMove(s, r)
  {
  }

  ghost predicate CanMove(s: State, r: RunId)
    requires r in s.runs
  {
    match s.runs[r].phase
    case Claimed => Enabled(s, Advance(r))
    case Advanced => Enabled(s, Add(r))
    case Added => Enabled(s, Spawn(r))
    case Spawned =>
      if s.limited then forall refused, canceled :: Enabled(s, Acquire(r, refused, canceled))
      else Enabled(s, Begin(r))
    case Waiting => r in s.sem.calls && (s.sem.calls[r].Asleep? || forall canceled :: Enabled(s, Resume(r, canceled)))
    case Working(_) => Enabled(s, FuncEnds(r))
    case Refused => Enabled(s, Report(r))
    case Releasing => Enabled(s, Unlock(r)) && s.sem.inFlight >= 1
    case Broadcasting => Enabled(s, Broadcast(r))
    case Finishing => Enabled(s, ClearFlag(r))
    case Leaving => Enabled(s, WgDone(r))
  }

  /** A launch puts the entry's due time one interval after the instant of the
      RunDue call that claimed it, or clears it without an interval. */
  lemma LaunchMovesDueTime(run: seq<State>, i: nat, r: RunId)
    requires Behavior(Init, Next, run) && i < |run| && Enabled(run[i], Advance(r))
    ensures var s, s' := run[i], Step(run[i], Advance(r));
            var id := s.runs[r].entry;
            && id in s'.items && s'.items.Keys == s.items.Keys
            && s'.items[id].nextDue == (if s.items[id].interval > 0
                                        then Some(s.calls[s.runs[r].caller].now + s.items[id].interval) else None)
            && s'.items[id].running && s'.items[id].interval == s.items[id].interval
            && forall other | other in s.items && other != id :: s'.items[other] == s.items[other]
  {
    RunsKeepInv(run);
    assert Inv(run[i]);
    FlagIsSet(run[i], r);
  }

  // ---------- Waiting for invocations ----------

  /** WaitInflight may return exactly when every invocation there is has been
      claimed by a RunDue call that has not yet added it to the wait group. */
  lemma WaitSeesAllButClaims(run: seq<State>, i: nat)
    requires Behavior(Init, Next, run) && i < |run|
    ensures run[i].wg == 0 <==>
            forall r | r in run[i].runs :: run[i].runs[r].phase.Claimed? || run[i].runs[r].phase.Advanced?
    ensures run[i].wg == 0 ==>
      (run[i].runs == map[] <==> forall c | c in run[i].calls :: run[i].calls[c].current.None?)
    ensures run[i].wg == 0 && run[i].calls == map[] ==> run[i].runs == map[] && run[i].sem.inFlight == 0
  {
    RunsKeepInv(run);
    var s := run[i];
    assert Inv(s);
    SumBounds(s.runs, Member);
    if s.wg != 0 {
      SomeoneWeighs(s.runs, Member);
    }
    if s.wg == 0 {
      assert forall r | r in s.runs :: Member(s.runs[r]) == 0;
      assert forall r | r in s.runs :: StepOfCaller(s, r);
      if forall c | c in s.calls :: s.calls[c].current.None? {
        assert s.runs == map[];
      }
    }
  }

  /** Two live invocations of one name belong to different entries, and at most
      one of these is still registered. */
  lemma OverlapNeedsReplacement(run: seq<State>, i: nat, a: RunId, b: RunId)
    requires Behavior(Init, Next, run) && i < |run|
    requires var s := run[i];
             && a in s.runs && b in s.runs && a != b && s.runs[a].HoldsFlag() && s.runs[b].HoldsFlag()
             && s.runs[a].entry in s.items && s.runs[b].entry in s.items
             && s.items[s.runs[a].entry].name == s.items[s.runs[b].entry].name
    ensures run[i].runs[a].entry != run[i].runs[b].entry
    ensures run[i].runs[a].entry !in run[i].jobs.Values || run[i].runs[b].entry !in run[i].jobs.Values
  {
    InvocationsNeverOverlap(run, i, run[i].runs[a].entry);
    RunsKeepInv(run);
    assert RefersToItems(run[i]);
  }

  // ---------- Two behaviours that show the limits ----------

  lemma RunGrows(run: seq<State>, e: Event, s: State)
    requires Behavior(Init, Next, run) && Enabled(run[|run| - 1], e) && s == Step(run[|run| - 1], e)
    ensures Behavior(Init, Next, run + [s])
  {
    BehaviorGrows(Init, Next, run, s);
  }

  /** A new RunDue call claims a due, idle entry. */
  lemma ClaimFirst(run: seq<State>, c: CallId, r: RunId, id: EntryId, now: int) returns (longer: seq<State>)
    requires Behavior(Init, Next, run)
    requires var s := run[|run| - 1];
             && c !in s.calls && r !in s.runs && id in s.jobs.Values && id in s.items
             && !s.items[id].running && Due(s.items[id].nextDue, now)
    ensures Behavior(Init, Next, longer) && |longer| >= |run|
    ensures var s := run[|run| - 1];
            longer[|longer| - 1] == s.(items := s.items[id := s.items[id].(running := true)],
                                       calls := s.calls[c := Call(now, [], Some(r))],
                                       runs := s.runs[r := Invocation(id, c, Claimed)])
  {
    var s := run[|run| - 1];
    var s1 := s.(calls := s.calls[c := Call(now, [id], None)]);
    RunGrows(run, Collect(c, now, [id]), s1);
    var s2 := s.(items := s.items[id := s.items[id].(running := true)],
                 calls := s.calls[c := Call(now, [], Some(r))],
                 runs := s.runs[r := Invocation(id, c, Claimed)]);
    assert s1.calls[c].todo[1..] == [];
    assert s2.calls == s1.calls[c := Call(now, [], Some(r))];
    RunGrows(run + [s1], Claim(c, r), s2);
    longer := run + [s1] + [s2];
  }

  /** The call goes on to start it; without a limiter it is then at work. */
  lemma StartClaimed(run: seq<State>, c: CallId, r: RunId) returns (longer: seq<State>)
    requires Behavior(Init, Next, run)
    requires var s := run[|run| - 1];
             && At(s, r, Claimed) && s.runs[r].caller == c && !s.limited
             && c in s.calls && s.calls[c].todo == [] && s.calls[c].current == Some(r)
    ensures Behavior(Init, Next, longer) && |longer| >= |run| && longer[..|run|] == run
    ensures var s, s' := run[|run| - 1], longer[|longer| - 1];
            && s'.runs == s.runs[r := s.runs[r].(phase := Working(false))]
            && (var id := s.runs[r].entry;
                s'.items == s.items[id := s.items[id].(nextDue := NextAfter(s.items[id].interval, s.calls[c].now))])
            && s'.calls == s.calls - {c} && s'.jobs == s.jobs && !s'.limited
  {
    var s := run[|run| - 1];
    var id := s.runs[r].entry;
    var s1 := s.(items := s.items[id := s.items[id].(nextDue := NextAfter(s.items[id].interval, s.calls[c].now))],
                 runs := s.runs[r := s.runs[r].(phase := Advanced)]);
    RunGrows(run, Advance(r), s1);
    var s2 := s1.(wg := s1.wg + 1, runs := s1.runs[r := s1.runs[r].(phase := Added)]);
    RunGrows(run + [s1], Add(r), s2);
    var s3 := s2.(calls := s2.calls[c := s2.calls[c].(current := None)],
                  runs := s2.runs[r := s2.runs[r].(phase := Spawned)]);
    RunGrows(run + [s1] + [s2], Spawn(r), s3);
    var s4 := s3.(calls := s3.calls - {c});
    RunGrows(run + [s1] + [s2] + [s3], Return(c), s4);
    var s5 := s4.(runs := s4.runs[r := s4.runs[r].(phase := Working(false))]);
    RunGrows(run + [s1] + [s2] + [s3] + [s4], Begin(r), s5);
    longer := run + [s1] + [s2] + [s3] + [s4] + [s5];
  }

  lemma RegisterOne(sem: Limiter.Sem, interval: int) returns (run: seq<State>)
    requires Limiter.Init(sem)
    ensures Behavior(Init, Next, run)
    ensures run[|run| - 1] ==
            State(map[0 := Item("job", interval, Some(0), false)], map["job" := 0], map[], map[], 0, false, sem)
    ensures 0 in run[|run| - 1].jobs.Values
  {
    var s0 := State(map[], map[], map[], map[], 0, false, sem);
    var s1 := s0.(items := map[0 := Item("job", interval, Some(0), false)], jobs := map["job" := 0]);
    run := [s0];
    RunGrows(run, Register("job", 0, interval, 0), s1);
    run := run + [s1];
    assert s1.jobs["job"] == 0;
  }

  /** WaitInflight can return with an invocation claimed that has yet to start:
      the wait group is empty at state k, and the invocation works later. */
  lemma WaitCanMissAClaim(sem: Limiter.Sem) returns (run: seq<State>, k: nat)
    requires Limiter.Init(sem)
    ensures Behavior(Init, Next, run) && k < |run|
    ensures run[k].wg == 0 && At(run[k], 0, Claimed) && At(run[|run| - 1], 0, Working(false))
  {
    run := RegisterOne(sem, 10);
    run := ClaimFirst(run, 0, 0, 0, 0);
    k := |run| - 1;
    var before := run;
    run := StartClaimed(run, 0, 0);
    assert run[k] == run[..|before|][k];
  }

  /** Scheduling a running job's name again lets a second invocation of that
      name start beside the first: the guard is per entry. */
  lemma SameNameCanOverlap(sem: Limiter.Sem) returns (run: seq<State>)
    requires Limiter.Init(sem)
    ensures Behavior(Init, Next, run)
    ensures var s := run[|run| - 1];
            && At(s, 0, Working(false)) && At(s, 1, Working(false))
            && s.items[s.runs[0].entry].name == s.items[s.runs[1].entry].name
  {
    run := RegisterOne(sem, 10);
    run := ClaimFirst(run, 0, 0, 0, 0);
    run := StartClaimed(run, 0, 0);
    var s := run[|run| - 1];
    var s' := s.(items := s.items[1 := Item("job", 10, Some(0), false)], jobs := s.jobs["job" := 1]);
    RunGrows(run, Register("job", 1, 10, 0), s');
    run := run + [s'];
    assert s'.jobs["job"] == 1;
    run := ClaimFirst(run, 0, 1, 1, 0);
    run := StartClaimed(run, 0, 1);
  }
}
