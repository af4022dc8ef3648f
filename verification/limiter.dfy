// internal/limiter: the counting semaphore and its condition variable.
//
// Each section that runs under the mutex is one step, and so is each
// Broadcast, which happens after the mutex has been released. Waiting on the
// condition variable puts the caller to sleep in the same step that releases
// the mutex.

module Limiter {
  import opened Common

  type Caller = nat

  /** Where a call is between two of its steps. */
  datatype Phase =
    | Asleep(n: nat)  // inside cond.Wait, asking for n permits
    | Awake(n: nat)   // woken, but has not got the mutex back yet
    | Owing           // ReleaseN has unlocked, its Broadcast is still to come

  datatype Sem = Sem(
    capacity: nat,
    inFlight: int,
    totalAcquired: nat,
    totalWaited: nat,
    totalReleased: nat,        // history: permits given back so far
    calls: map<Caller, Phase>) // calls that are between two steps

  datatype Outcome = Acquired | MustWait | Failed | Panicked | Done

  datatype Event =
    | Enter(c: Caller, n: int, refused: bool, canceled: bool)  // AcquireN up to its first wait
    | Recheck(c: Caller, canceled: bool)                       // AcquireN when the mutex is back
    | Try(n: int)                                              // TryAcquireN
    | Unlock(c: Caller, n: int)                                // ReleaseN up to its Unlock
    | Broadcast(c: Caller)                                     // the rest of ReleaseN
    | Wakeup                                                   // a Broadcast by a cancellation watcher

  ghost predicate Enabled(s: Sem, e: Event) {
    match e
    case Enter(c, _, _, _) => c !in s.calls
    case Recheck(c, _) => c in s.calls && s.calls[c].Awake?
    case Try(_) => true
    case Unlock(c, _) => c !in s.calls
    case Broadcast(c) => c in s.calls && s.calls[c].Owing?
    case Wakeup => true
  }

  function Roused(calls: map<Caller, Phase>): map<Caller, Phase> {
    map c | c in calls :: if calls[c].Asleep? then Awake(calls[c].n) else calls[c]
  }

  /** The turn of AcquireN's loop that holds the mutex: take the permits, give
      up because the context ended, or go (back) to sleep. */
  function Turn(s: Sem, c: Caller, n: nat, canceled: bool, waited: bool): (Sem, Outcome) {
    if s.inFlight + n <= s.capacity then
      (s.(inFlight := s.inFlight + n,
          totalAcquired := s.totalAcquired + n,
          totalWaited := s.totalWaited + (if waited then 1 else 0),
          calls := s.calls - {c}),
       Acquired)
    else if canceled then
      (s.(calls := s.calls - {c}), Failed)
    else
      (s.(calls := s.calls[c := Asleep(n)]), MustWait)
  }

  function Step(s: Sem, e: Event): (Sem, Outcome)
    requires e.Recheck? ==> e.c in s.calls && s.calls[e.c].Awake?
  {
    match e
    case Enter(c, n, refused, canceled) =>
      if n <= 0 then (s, Done)
      else if n > s.capacity || refused then (s, Failed)
      else Turn(s, c, n, canceled, false)
    case Recheck(c, canceled) =>
      Turn(s, c, s.calls[c].n, canceled, true)
    case Try(n) =>
      if n <= 0 then (s, Acquired)
      else if s.inFlight + n > s.capacity then (s, Failed)
      else (s.(inFlight := s.inFlight + n, totalAcquired := s.totalAcquired + n), Acquired)
    case Unlock(c, n) =>
      if n <= 0 then (s, Done)
      else if s.inFlight < n then (s, Panicked)
      else (s.(inFlight := s.inFlight - n, totalReleased := s.totalReleased + n, calls := s.calls[c := Owing]), Done)
    case Broadcast(c) =>
      (s.(calls := Roused(s.calls - {c})), Done)
    case Wakeup =>
      (s.(calls := Roused(s.calls)), Done)
  }

  ghost predicate Init(s: Sem) {
    s.capacity >= 1 && s == Sem(s.capacity, 0, 0, 0, 0, map[])
  }

  ghost predicate Next(s: Sem, s': Sem) {
    exists e :: Enabled(s, e) && s' == Step(s, e).0
  }

  // ---------- What every run keeps ----------

  /** A caller that sleeps has nothing it could take, or the Broadcast that
      will wake it is still on its way. */
  ghost predicate NoLostWakeup(s: Sem) {
    forall c | c in s.calls && s.calls[c].Asleep? ::
      || s.inFlight + s.calls[c].n > s.capacity
      || exists r | r in s.calls :: s.calls[r].Owing?
  }

  /** Permits in flight are the ones acquired and not released, and never more
      than there are. */
  ghost predicate PermitsConserved(s: Sem) {
    && s.inFlight == s.totalAcquired - s.totalReleased
    && 0 <= s.inFlight <= s.capacity
  }

  ghost predicate Inv(s: Sem) {
    && NoLostWakeup(s)
    && PermitsConserved(s)
    && s.capacity >= 1
    && forall c | c in s.calls && !s.calls[c].Owing? :: 0 < s.calls[c].n <= s.capacity
  }

  lemma StepKeepsInv(s: Sem, e: Event)
    requires Inv(s) && Enabled(s, e)
    ensures Inv(Step(s, e).0)
  {
    var s' := Step(s, e).0;
    if e.Unlock? && 0 < e.n <= s.inFlight {
      assert e.c in s'.calls && s'.calls[e.c].Owing?;
    } else if e.Enter? || e.Recheck? || e.Try? {
      assert forall r | r in s.calls && s.calls[r].Owing? :: r in s'.calls && s'.calls[r].Owing?;
    }
  }

  lemma RunsKeepInv(run: seq<Sem>)
    requires Behavior(Init, Next, run)
    ensures forall i | 0 <= i < |run| :: Inv(run[i])
  {
    forall s, s' | Inv(s) && Next(s, s')
      ensures Inv(s')
    {
      var e :| Enabled(s, e) && s' == Step(s, e).0;
      StepKeepsInv(s, e);
    }
    Invariance(Init, Next, Inv, run);
  }

  /** In every state of every run no wakeup is lost and permits are conserved. */
  lemma NoWakeupIsLost(run: seq<Sem>)
    requires Behavior(Init, Next, run)
    ensures forall i | 0 <= i < |run| :: NoLostWakeup(run[i]) && PermitsConserved(run[i])
  {
    RunsKeepInv(run);
  }

  /** So nobody sleeps on once every permit is back and every Broadcast is out. */
  lemma NobodySleepsOnAnIdleSemaphore(run: seq<Sem>, i: nat, c: Caller)
    requires Behavior(Init, Next, run) && i < |run|
    requires run[i].inFlight == 0 && forall r | r in run[i].calls :: !run[i].calls[r].Owing?
    requires c in run[i].calls
    ensures run[i].calls[c].Awake?
  {
    RunsKeepInv(run);
  }

  /** A Broadcast wakes every sleeper, and its caller is then done; a wakeup by a
      watcher does the same without a caller. No permit moves. */
  lemma BroadcastWakesAll(s: Sem, c: Caller)
    requires Enabled(s, Broadcast(c))
    ensures var s' := Step(s, Broadcast(c)).0;
            && s'.calls.Keys == s.calls.Keys - {c} && s'.inFlight == s.inFlight
            && forall d | d in s'.calls :: WokenFrom(s.calls[d], s'.calls[d])
    ensures var s' := Step(s, Wakeup).0;
            && s'.calls.Keys == s.calls.Keys && s'.inFlight == s.inFlight
            && forall d | d in s'.calls :: WokenFrom(s.calls[d], s'.calls[d])
  {
  }

  predicate WokenFrom(p: Phase, p': Phase) { !p'.Asleep? && (if p.Asleep? then p' == Awake(p.n) else p' == p) }

  // ---------- The semaphore object ----------

  class Semaphore {
    const capacity: nat
    var inFlight: int
    var totalAcquired: nat
    var totalWaited: nat
    ghost var totalReleased: nat
    ghost var calls: map<Caller, Phase>

    ghost function View(): Sem reads this {
      Sem(capacity, inFlight, totalAcquired, totalWaited, totalReleased, calls)
    }

    constructor (capacity: nat)
      requires capacity >= 1
      ensures Init(View()) && this.capacity == capacity
    {
      this.capacity := capacity;
      inFlight, totalAcquired, totalWaited, totalReleased, calls := 0, 0, 0, 0, map[];
    }

    /** One turn of AcquireN's loop under the mutex. */
    method LoopTurn(c: Caller, n: nat, canceled: bool, waited: bool) returns (out: Outcome)
      modifies this
      ensures (View(), out) == Turn(old(View()), c, n, canceled, waited)
      ensures out == if old(inFlight) + n <= capacity then Acquired else if canceled then Failed else MustWait
      ensures inFlight == old(inFlight) + (if out.Acquired? then n else 0)
      ensures totalAcquired == old(totalAcquired) + (if out.Acquired? then n else 0)
      ensures totalWaited == old(totalWaited) + (if out.Acquired? && waited then 1 else 0)
      ensures totalReleased == old(totalReleased)
      ensures calls == if out.MustWait? then old(calls)[c := Asleep(n)] else old(calls) - {c}
    {
      if inFlight + n > capacity {
        if canceled {
          calls := calls - {c};
          return Failed;
        }
        calls := calls[c := Asleep(n)];
        return MustWait;
      }
      inFlight := inFlight + n;
      totalAcquired := totalAcquired + n;
      if waited {
        totalWaited := totalWaited + 1;
      }
      calls := calls - {c};
      return Acquired;
    }

    /** AcquireN up to its first wait; refused is the context's state on entry. */
    method Enter(c: Caller, n: int, refused: bool, canceled: bool) returns (out: Outcome)
      requires c !in calls
      modifies this
      ensures (View(), out) == Step(old(View()), Event.Enter(c, n, refused, canceled))
      ensures out == if n <= 0 then Done
                     else if n > capacity || refused then Failed
                     else if old(inFlight) + n <= capacity then Acquired
                     else if canceled then Failed else MustWait
      ensures inFlight == old(inFlight) + (if out.Acquired? then n else 0)
      ensures totalAcquired == old(totalAcquired) + (if out.Acquired? then n else 0)
      ensures totalWaited == old(totalWaited) && totalReleased == old(totalReleased)
      ensures calls == if out.MustWait? then old(calls)[c := Asleep(n)] else old(calls)
    {
      if n <= 0 {
        return Done;
      }
      if n > capacity || refused {
        return Failed;
      }
      out := LoopTurn(c, n, canceled, false);
    }

    method Recheck(c: Caller, n: nat, canceled: bool) returns (out: Outcome)
      requires c in calls && calls[c] == Awake(n)
      modifies this
      ensures (View(), out) == Step(old(View()), Event.Recheck(c, canceled))
      ensures out == if old(inFlight) + n <= capacity then Acquired else if canceled then Failed else MustWait
      ensures inFlight == old(inFlight) + (if out.Acquired? then n else 0)
      ensures totalAcquired == old(totalAcquired) + (if out.Acquired? then n else 0)
      ensures totalWaited == old(totalWaited) + (if out.Acquired? then 1 else 0)
      ensures calls == if out.MustWait? then old(calls)[c := Asleep(n)] else old(calls) - {c}
    {
      out := LoopTurn(c, n, canceled, true);
    }

    method TryAcquireN(n: int) returns (ok: bool)
      modifies this
      ensures View() == Step(old(View()), Try(n)).0
      ensures ok == Step(old(View()), Try(n)).1.Acquired?
      ensures ok <==> n <= 0 || old(inFlight) + n <= capacity
      ensures inFlight == old(inFlight) + (if ok && n > 0 then n else 0)
      ensures totalAcquired == old(totalAcquired) + (if ok && n > 0 then n else 0)
      ensures totalWaited == old(totalWaited) && totalReleased == old(totalReleased) && calls == old(calls)
    {
      if n <= 0 {
        return true;
      }
      if inFlight + n > capacity {
        return false;
      }
      inFlight := inFlight + n;
      totalAcquired := totalAcquired + n;
      return true;
    }

    /** ReleaseN up to its Unlock; it panics when more is released than held. */
    method ReleaseLocked(c: Caller, n: int) returns (out: Outcome)
      requires c !in calls
      modifies this
      ensures (View(), out) == Step(old(View()), Unlock(c, n))
      ensures out.Panicked? <==> n > old(inFlight) && n > 0
      ensures out.Done? || out.Panicked?
      ensures inFlight == old(inFlight) - (if out.Done? && n > 0 then n else 0)
      ensures calls == if out.Done? && n > 0 then old(calls)[c := Owing] else old(calls)
      ensures totalAcquired == old(totalAcquired) && totalWaited == old(totalWaited)
    {
      if n <= 0 {
        return Done;
      }
      if inFlight < n {
        return Panicked;
      }
      inFlight := inFlight - n;
      totalReleased := totalReleased + n;
      calls := calls[c := Owing];
      return Done;
    }
  }
}
