// internal/eventbus: does Close of the asynchronous bus return?
//
// Close waits for the workers. They leave once their stop channels are closed,
// which Close does for the subscribers that it finds registered. A Subscribe
// that has passed its closed check may still register one afterwards.

module AsyncBusClose {
  import opened Common
  import opened AsyncBus

  ghost function WorkerLeft<E>(w: Worker<E>): int {
    match w
    case NotStarted => 3
    case Looping => 2
    case Handling(_, draining) => if draining then 2 else 3
    case Draining => 1
    case Exited => 0
  }

  ghost function SubLeft<E>(s: Sub<E>): int { 2 * |s.queue| + WorkerLeft(s.worker) }

  ghost function PubLeft<E>(p: Publisher<E>): int {
    match p
    case Checked(_) => 2
    case Sending(_, targets) => 1 + 3 * |targets|
  }

  /** A bound on the steps that are left when Close has stopped everyone. */
  ghost function Left<E>(b: Bus<E>): int {
    Sum(b.subs, SubLeft) + Sum(b.publishers, PubLeft) + if b.closing.Stopped? then 1 else 0
  }

  lemma LeftIsNatural<E>(b: Bus<E>)
    ensures Left(b) >= 0
  {
    SumBounds(b.subs, SubLeft);
    SumBounds(b.publishers, PubLeft);
  }

  /** Close has closed the stop channel of every subscriber that there is, and
      no Subscribe is about to register another one. */
  ghost predicate Sealed<E>(b: Bus<E>) {
    && (b.closing.Stopped? || b.closing.Returned?)
    && b.subscribing == 0
    && forall id | id in b.subs :: b.subs[id].stopped
  }

  lemma QuietCloseIsSealed<E>(cfg: Config, b: Bus<E>)
    requires Inv(cfg, b) && b.quiet && (b.closing.Stopped? || b.closing.Returned?)
    ensures Sealed(b)
  {
    forall id | id in b.subs
      ensures b.subs[id].stopped
    {
      assert SubOk(cfg, b.subs[id]) && !b.subs[id].registered;
    }
  }

  /** What happens to a publisher once its offer to one subscriber is settled. */
  lemma SettleWindsDown<E>(b: Bus<E>, p: Id, id: Id)
    requires Offering(b, p, id)
    ensures Sum(Settle(b, p, id), PubLeft) == Sum(b.publishers, PubLeft) - 3
  {
    SumUpdate(b.publishers, p, Settle(b, p, id)[p], PubLeft);
  }

  lemma SubEventWindsDown<E>(cfg: Config, b: Bus<E>, e: Event<E>)
    requires Inv(cfg, b) && Sealed(b) && Enabled(cfg, b, e) && Target(e).Some? && !e.Unsubscribe?
    ensures Sealed(Step(cfg, b, e)) && Left(Step(cfg, b, e)) < Left(b)
  {
    var id := Target(e).value;
    var s' := SubStep(b.subs[id], e, Payload(b, e));
    SumUpdate(b.subs, id, s', SubLeft);
    SubStepWindsDown(b.subs[id], e, Payload(b, e));
    if e.Send? {
      SettleWindsDown(b, e.p, e.id);
    }
  }

  lemma SubStepWindsDown<E>(s: Sub<E>, e: Event<E>, payload: Option<E>)
    ensures SubStep(s, e, payload).stopped == s.stopped || e.Unsubscribe?
    ensures e.Send? ==> SubLeft(SubStep(s, e, payload)) <= SubLeft(s) + 2
    ensures e.StartWorker? && s.worker.NotStarted? ==> SubLeft(SubStep(s, e, payload)) < SubLeft(s)
    ensures e.Take? && s.queue != [] && (s.worker.Looping? || s.worker.Draining?) ==>
      SubLeft(SubStep(s, e, payload)) < SubLeft(s)
    ensures e.Handled? && s.worker.Handling? ==> SubLeft(SubStep(s, e, payload)) < SubLeft(s)
    ensures e.SeeStop? && s.worker.Looping? ==> SubLeft(SubStep(s, e, payload)) < SubLeft(s)
    ensures e.Exit? && s.worker.Draining? ==> SubLeft(SubStep(s, e, payload)) < SubLeft(s)
  {
  }

  lemma PublisherWindsDown<E>(cfg: Config, b: Bus<E>, e: Event<E>)
    requires Inv(cfg, b) && Sealed(b) && Enabled(cfg, b, e) && (e.Snapshot? || e.Drop? || e.Skip? || e.PublishEnd?)
    ensures Sealed(Step(cfg, b, e)) && Left(Step(cfg, b, e)) < Left(b)
  {
    if e.Snapshot? {
      forall id | id in b.subs
        ensures !b.subs[id].registered
      {
        assert SubOk(cfg, b.subs[id]);
      }
      assert Registered(b) == {};
      SumUpdate(b.publishers, e.p, Sending(b.publishers[e.p].e, {}), PubLeft);
    } else if e.PublishEnd? {
      SumRemove(b.publishers, e.p, PubLeft);
    } else {
      SettleWindsDown(b, e.p, e.id);
    }
  }

  /** Every step of a sealed bus leaves fewer of them; an Unsubscribe, which can
      be called at any time, has nothing to do any more. */
  lemma SealedBusWindsDown<E>(cfg: Config, b: Bus<E>, e: Event<E>)
    requires Inv(cfg, b) && Sealed(b) && Enabled(cfg, b, e)
    ensures if e.Unsubscribe? then Step(cfg, b, e) == b
            else Sealed(Step(cfg, b, e)) && Left(Step(cfg, b, e)) < Left(b)
  {
    if e.Unsubscribe? {
      assert SubOk(cfg, b.subs[e.id]);
    } else if Target(e).Some? {
      SubEventWindsDown(cfg, b, e);
    } else if e.Snapshot? || e.Drop? || e.Skip? || e.PublishEnd? {
      PublisherWindsDown(cfg, b, e);
    } else {
      assert e.CloseReturn?;
    }
  }

  ghost predicate AllDone<E>(b: Bus<E>) {
    b.closing.Returned? && b.publishers == map[] && forall id | id in b.subs :: b.subs[id].worker.Exited?
  }

  /** The step that the worker of a stopped subscriber can take. */
  lemma StoppedWorkerCanMove<E>(cfg: Config, b: Bus<E>, id: Id) returns (e: Event<E>)
    requires Inv(cfg, b) && id in b.subs && b.subs[id].stopped && !b.subs[id].worker.Exited?
    ensures Enabled(cfg, b, e) && Target(e) == Some(id) && !e.Unsubscribe? && !e.Send?
  {
    var s := b.subs[id];
    e := if s.worker.NotStarted? then StartWorker(id)
         else if s.worker.Looping? then SeeStop(id)
         else if s.worker.Handling? then Handled(id)
         else if s.queue == [] then Exit(id) else Take(id);
  }

  /** A publisher never waits for a stopped subscriber. */
  lemma PublisherCanMove<E>(cfg: Config, b: Bus<E>, p: Id) returns (e: Event<E>)
    requires Inv(cfg, b) && Sealed(b) && p in b.publishers
    ensures Enabled(cfg, b, e) && !e.Unsubscribe?
  {
    if b.publishers[p].Checked? {
      return Event<E>.Snapshot(p);
    }
    if b.publishers[p].targets == {} {
      return PublishEnd(p);
    }
    var id :| id in b.publishers[p].targets;
    assert b.publishers[p].targets <= b.subs.Keys;
    if !cfg.dropWhenFull {
      return Skip(p, id);
    }
    if |b.subs[id].queue| < cfg.Buffer() {
      return Send(p, id);
    }
    return Drop(p, id);
  }

  lemma SealedBusCanMove<E>(cfg: Config, b: Bus<E>) returns (e: Event<E>)
    requires Inv(cfg, b) && Sealed(b) && !AllDone(b)
    ensures Enabled(cfg, b, e) && !e.Unsubscribe?
  {
    if id :| id in b.subs && !b.subs[id].worker.Exited? {
      e := StoppedWorkerCanMove(cfg, b, id);
    } else if p :| p in b.publishers {
      e := PublisherCanMove(cfg, b, p);
    } else {
      SumZero(b.subs, Works);
      assert b.publishers == map[];
      e := CloseReturn;
    }
  }

  ghost predicate NextWithoutUnsubscribe<E(!new)>(cfg: Config, b: Bus<E>, b': Bus<E>) {
    exists e: Event<E> :: Enabled(cfg, b, e) && b' == Step(cfg, b, e) && !e.Unsubscribe?
  }

  /** What can follow a state while nobody unsubscribes. */
  ghost predicate Path<E(!new)>(cfg: Config, b: Bus<E>, path: seq<Bus<E>>) {
    && path != [] && path[0] == b
    && forall k | 0 <= k < |path| - 1 :: NextWithoutUnsubscribe(cfg, path[k], path[k + 1])
  }

  lemma NextWindsDown<E(!new)>(cfg: Config, b: Bus<E>, b': Bus<E>)
    requires Inv(cfg, b) && Sealed(b) && NextWithoutUnsubscribe(cfg, b, b')
    ensures Inv(cfg, b') && Sealed(b') && Left(b') < Left(b)
  {
    var e: Event<E> :| Enabled(cfg, b, e) && b' == Step(cfg, b, e) && !e.Unsubscribe?;
    StepKeepsInv(cfg, b, e);
    SealedBusWindsDown(cfg, b, e);
  }

  lemma {:induction false} PathWindsDown<E(!new)>(cfg: Config, b: Bus<E>, path: seq<Bus<E>>, k: nat)
    requires Inv(cfg, b) && Sealed(b) && Path(cfg, b, path) && k < |path|
    ensures Inv(cfg, path[k]) && Sealed(path[k]) && Left(path[k]) <= Left(b) - k
  {
    if k > 0 {
      PathWindsDown(cfg, b, path, k - 1);
      assert NextWithoutUnsubscribe(cfg, path[k - 1], path[k - 1 + 1]);
      NextWindsDown(cfg, path[k - 1], path[k]);
    }
  }

  /** Close terminates once the bus is sealed: in whatever order workers and
      publishers move, only so many steps remain, and none is possible exactly
      when Close and every Publish have returned and all workers have gone. */
  lemma SealedCloseReturns<E(!new)>(cfg: Config, run: seq<Bus<E>>, i: nat, path: seq<Bus<E>>)
    requires IsRun(cfg, run) && i < |run| && Sealed(run[i]) && Path(cfg, run[i], path)
    ensures |path| - 1 <= Left(run[i])
    ensures (forall e: Event<E> | Enabled(cfg, path[|path| - 1], e) :: e.Unsubscribe?) <==> AllDone(path[|path| - 1])
  {
    RunsKeepInv(cfg, run);
    assert Inv(cfg, run[i]);
    var last := path[|path| - 1];
    PathWindsDown(cfg, run[i], path, |path| - 1);
    LeftIsNatural(last);
    if !AllDone(last) {
      var e := SealedBusCanMove(cfg, last);
    }
  }

  // ---------- A Subscribe that overlaps Close ----------

  /** A worker that Close waits for and whose stop channel it has not closed. */
  ghost predicate Forgotten<E>(b: Bus<E>, id: Id) {
    && id in b.subs && b.subs[id].registered
    && (b.subs[id].worker.Looping? || (b.subs[id].worker.Handling? && !b.subs[id].worker.draining))
  }

  ghost predicate CloseCanReturn<E(!new)>(cfg: Config, b: Bus<E>) {
    exists path: seq<Bus<E>> :: Path(cfg, b, path) && path[|path| - 1].closing.Returned?
  }

  lemma ForgottenIsCounted<E>(b: Bus<E>, id: Id)
    requires b.workers == Sum(b.subs, Works) && Forgotten(b, id)
    ensures b.workers >= 1
  {
    SumBounds(b.subs, Works);
    assert Works(b.subs[id]) <= b.workers;
  }

  /** Such a worker keeps Close waiting, whatever happens short of its own
      Unsubscribe. */
  lemma ForgottenStays<E>(cfg: Config, b: Bus<E>, e: Event<E>, id: Id)
    requires b.workers >= 1 && b.closing.Stopped? && b.closed
    requires Forgotten(b, id) && !b.subs[id].stopped && Enabled(cfg, b, e)
    requires !(e.Unsubscribe? && e.id == id)
    ensures Step(cfg, b, e).closing.Stopped? && Forgotten(Step(cfg, b, e), id)
  {
  }

  lemma {:induction false} ForgottenAlongPath<E(!new)>(cfg: Config, b: Bus<E>, path: seq<Bus<E>>, id: Id, k: nat)
    requires Inv(cfg, b) && b.closing.Stopped? && Forgotten(b, id) && Path(cfg, b, path) && k < |path|
    ensures Inv(cfg, path[k]) && path[k].closing.Stopped? && Forgotten(path[k], id)
  {
    if k > 0 {
      ForgottenAlongPath(cfg, b, path, id, k - 1);
      assert NextWithoutUnsubscribe(cfg, path[k - 1], path[k - 1 + 1]);
      var e: Event<E> :| Enabled(cfg, path[k - 1], e) && path[k] == Step(cfg, path[k - 1], e) && !e.Unsubscribe?;
      StepKeepsInv(cfg, path[k - 1], e);
      ForgottenIsCounted(path[k - 1], id);
      assert SubOk(cfg, path[k - 1].subs[id]);
      ForgottenStays(cfg, path[k - 1], e, id);
    }
  }

  lemma WorkerMovesAlone<E>(cfg: Config, b: Bus<E>, e: Event<E>, id: Id)
    requires id in b.subs && !b.subs[id].registered && b.closing.Stopped? && Enabled(cfg, b, e)
    requires Target(e) == Some(id) && !e.Unsubscribe? && !e.Send?
    requires forall other :: !Forgotten(b, other)
    ensures Step(cfg, b, e).closing.Stopped? && forall other :: !Forgotten(Step(cfg, b, e), other)
    ensures Step(cfg, b, e).subs == b.subs[id := SubStep(b.subs[id], e, None)]
  {
    forall other
      ensures !Forgotten(Step(cfg, b, e), other)
    {
      assert !Forgotten(b, other);
    }
  }

  /** One step towards the return of Close: a stopped worker moves on. */
  lemma TowardsReturn<E>(cfg: Config, b: Bus<E>, id: Id) returns (b': Bus<E>, e: Event<E>)
    requires Inv(cfg, b) && b.closing.Stopped? && id in b.subs && b.subs[id].worker.Counted()
    requires forall other :: !Forgotten(b, other)
    ensures Enabled(cfg, b, e) && !e.Unsubscribe? && b' == Step(cfg, b, e)
    ensures Inv(cfg, b') && b'.closing.Stopped? && (forall other :: !Forgotten(b', other))
    ensures Sum(b'.subs, SubLeft) < Sum(b.subs, SubLeft)
  {
    assert SubOk(cfg, b.subs[id]) && !Forgotten(b, id);
    e := StoppedWorkerCanMove(cfg, b, id);
    b' := Step(cfg, b, e);
    StepKeepsInv(cfg, b, e);
    WorkerMovesAlone(cfg, b, e, id);
    SumUpdate(b.subs, id, SubStep(b.subs[id], e, None), SubLeft);
    SubStepWindsDown(b.subs[id], e, None);
  }

  lemma ReturnAtOnce<E(!new)>(cfg: Config, b: Bus<E>) returns (path: seq<Bus<E>>)
    requires b.workers == Sum(b.subs, Works) && b.closing.Stopped?
    requires forall id | id in b.subs :: !b.subs[id].worker.Counted()
    ensures Path(cfg, b, path) && path[|path| - 1].closing.Returned?
  {
    SumZero(b.subs, Works);
    path := PrependStep(cfg, b, CloseReturn, [Step(cfg, b, Event<E>.CloseReturn)]);
  }

  lemma {:induction false} PathToReturn<E(!new)>(cfg: Config, b: Bus<E>) returns (path: seq<Bus<E>>)
    requires Inv(cfg, b) && b.closing.Stopped? && forall id :: !Forgotten(b, id)
    ensures Path(cfg, b, path) && path[|path| - 1].closing.Returned?
    decreases Sum(b.subs, SubLeft)
  {
    SumBounds(b.subs, SubLeft);
    if id :| id in b.subs && b.subs[id].worker.Counted() {
      var b', e := TowardsReturn(cfg, b, id);
      SumBounds(b'.subs, SubLeft);
      var rest := PathToReturn(cfg, b');
      path := PrependStep(cfg, b, e, rest);
    } else {
      path := ReturnAtOnce(cfg, b);
    }
  }

  lemma PrependStep<E(!new)>(cfg: Config, b: Bus<E>, e: Event<E>, rest: seq<Bus<E>>) returns (path: seq<Bus<E>>)
    requires Enabled(cfg, b, e) && !e.Unsubscribe? && Path(cfg, Step(cfg, b, e), rest)
    ensures Path(cfg, b, path) && path[|path| - 1] == rest[|rest| - 1]
  {
    path := [b] + rest;
    forall k | 0 <= k < |path| - 1
      ensures NextWithoutUnsubscribe(cfg, path[k], path[k + 1])
    {
      if k > 0 {
        assert NextWithoutUnsubscribe(cfg, rest[k - 1], rest[k - 1 + 1]);
      }
    }
  }

  /** Exactly when Close can return without help: no worker runs for a subscriber
      that registered after Close had closed the stop channels. */
  lemma CloseReturnsUnlessForgotten<E(!new)>(cfg: Config, run: seq<Bus<E>>, i: nat)
    requires IsRun(cfg, run) && i < |run| && run[i].closing.Stopped?
    ensures CloseCanReturn(cfg, run[i]) <==> forall id :: !Forgotten(run[i], id)
  {
    RunsKeepInv(cfg, run);
    var b := run[i];
    assert Inv(cfg, b);
    if id :| Forgotten(b, id) {
      forall path: seq<Bus<E>> | Path(cfg, b, path)
        ensures !path[|path| - 1].closing.Returned?
      {
        ForgottenAlongPath(cfg, b, path, id, |path| - 1);
      }
    } else {
      var path := PathToReturn(cfg, b);
    }
  }

  /** Close may yet be kept waiting for good. */
  ghost predicate CanHang<E(!new)>(cfg: Config, b: Bus<E>) {
    exists path: seq<Bus<E>> :: Path(cfg, b, path) && Hangs(path[|path| - 1])
  }

  ghost predicate Hangs<E>(b: Bus<E>) { b.closing.Stopped? && exists id :: Forgotten(b, id) }

  lemma WorkerStartsLate<E(!new)>(cfg: Config, b: Bus<E>, id: Id) returns (path: seq<Bus<E>>)
    requires Inv(cfg, b) && b.closing.Stopped? && id in b.subs && !b.subs[id].stopped
    ensures Path(cfg, b, path) && Hangs(path[|path| - 1])
  {
    assert SubOk(cfg, b.subs[id]);
    if b.subs[id].worker.NotStarted? {
      var e := Event<E>.StartWorker(id);
      assert Forgotten(Step(cfg, b, e), id);
      path := PrependStep(cfg, b, e, [Step(cfg, b, e)]);
    } else {
      assert Forgotten(b, id);
      path := [b];
    }
  }

  lemma SubscribeEndsLate<E(!new)>(cfg: Config, b: Bus<E>) returns (path: seq<Bus<E>>)
    requires Inv(cfg, b) && b.closing.Stopped? && b.subscribing > 0
    ensures Path(cfg, b, path) && Hangs(path[|path| - 1])
  {
    var id := FreshNat(b.subs.Keys);
    var e := Event<E>.Register(id);
    StepKeepsInv(cfg, b, e);
    path := WorkerStartsLate(cfg, Step(cfg, b, e), id);
    path := PrependStep(cfg, b, e, path);
  }

  /** Close is bound to return, while nobody unsubscribes, exactly from the
      states in which the bus is sealed. */
  lemma CloseIsSafeIffSealed<E(!new)>(cfg: Config, run: seq<Bus<E>>, i: nat)
    requires IsRun(cfg, run) && i < |run| && run[i].closing.Stopped?
    ensures CanHang(cfg, run[i]) <==> !Sealed(run[i])
  {
    RunsKeepInv(cfg, run);
    var b := run[i];
    assert Inv(cfg, b);
    if Sealed(b) {
      forall path: seq<Bus<E>> | Path(cfg, b, path)
        ensures !Hangs(path[|path| - 1])
      {
        PathWindsDown(cfg, b, path, |path| - 1);
        var last := path[|path| - 1];
        assert forall id | id in last.subs :: SubOk(cfg, last.subs[id]);
      }
    } else if b.subscribing > 0 {
      var path := SubscribeEndsLate(cfg, b);
    } else {
      var id :| id in b.subs && !b.subs[id].stopped;
      var path := WorkerStartsLate(cfg, b, id);
    }
  }

  /** Close has been called, no Subscribe is past its closed check, and what
      Close has still to stop is stopped by it. */
  ghost predicate SafelyClosing<E>(b: Bus<E>) {
    b.closed && b.subscribing == 0 && (b.closing.Marked? || Sealed(b))
  }

  lemma StopSeals<E>(cfg: Config, b: Bus<E>)
    requires Inv(cfg, b) && b.closing.Marked? && b.subscribing == 0
    ensures Sealed(Step(cfg, b, Event<E>.CloseStop))
  {
    var b' := Step(cfg, b, Event<E>.CloseStop);
    forall id | id in b'.subs
      ensures b'.subs[id].stopped
    {
      assert SubOk(cfg, b.subs[id]);
    }
  }

  lemma SafelyClosingStays<E>(cfg: Config, b: Bus<E>, e: Event<E>)
    requires Inv(cfg, b) && SafelyClosing(b) && Enabled(cfg, b, e)
    ensures SafelyClosing(Step(cfg, b, e))
  {
    if Sealed(b) {
      SealedBusWindsDown(cfg, b, e);
    } else if e.CloseStop? {
      StopSeals(cfg, b);
    }
  }

  lemma {:induction false} SafelyClosingAlongPath<E(!new)>(cfg: Config, b: Bus<E>, path: seq<Bus<E>>, k: nat)
    requires Inv(cfg, b) && SafelyClosing(b) && Path(cfg, b, path) && k < |path|
    ensures Inv(cfg, path[k]) && SafelyClosing(path[k])
  {
    if k > 0 {
      SafelyClosingAlongPath(cfg, b, path, k - 1);
      assert NextWithoutUnsubscribe(cfg, path[k - 1], path[k - 1 + 1]);
      var e: Event<E> :| Enabled(cfg, path[k - 1], e) && path[k] == Step(cfg, path[k - 1], e) && !e.Unsubscribe?;
      StepKeepsInv(cfg, path[k - 1], e);
      SafelyClosingStays(cfg, path[k - 1], e);
    }
  }

  lemma SafelyClosingHangsNot<E>(cfg: Config, b: Bus<E>)
    requires Inv(cfg, b) && SafelyClosing(b)
    ensures !Hangs(b)
  {
    assert forall id | id in b.subs :: SubOk(cfg, b.subs[id]);
  }

  /** Seen from the call: a Close that has marked the bus as closed is bound to
      return, while nobody unsubscribes, exactly when no Subscribe is past its
      closed check. */
  lemma CloseIsSafeIffNobodySubscribes<E(!new)>(cfg: Config, run: seq<Bus<E>>, i: nat)
    requires IsRun(cfg, run) && i < |run| && run[i].closing.Marked?
    ensures CanHang(cfg, run[i]) <==> run[i].subscribing > 0
  {
    RunsKeepInv(cfg, run);
    var b := run[i];
    assert Inv(cfg, b);
    if b.subscribing > 0 {
      StepKeepsInv(cfg, b, CloseStop);
      var path := SubscribeEndsLate(cfg, Step(cfg, b, Event<E>.CloseStop));
      path := PrependStep(cfg, b, CloseStop, path);
    } else {
      forall path: seq<Bus<E>> | Path(cfg, b, path)
        ensures !Hangs(path[|path| - 1])
      {
        SafelyClosingAlongPath(cfg, b, path, |path| - 1);
        SafelyClosingHangsNot(cfg, path[|path| - 1]);
      }
    }
  }

  /** A Subscribe passes its check, Close stops everyone, and the subscriber is
      registered after that. */
  lemma RegisteredAfterStop(cfg: Config) returns (run: seq<Bus<int>>)
    ensures IsRun(cfg, run)
    ensures run[|run| - 1] ==
            Bus(true, map[0 := Sub([], true, false, NotStarted, [], [], [])], 0, map[], 0, 0, 0, 0, Stopped, false, {})
  {
    var b0: Bus<int> := Bus(false, map[], 0, map[], 0, 0, 0, 0, NotCalled, false, {});
    var b1 := b0.(subscribing := 1);
    assert Registered(b1) == {};
    var b2 := b1.(closed := true, closing := Marked);
    var b3 := b2.(closing := Stopped);
    var b4 := b3.(subscribing := 0, subs := map[0 := Sub([], true, false, NotStarted, [], [], [])]);
    run := [b0];
    RunGrows(cfg, run, SubscribeCheck, b1);
    RunGrows(cfg, run + [b1], CloseMark, b2);
    assert Step(cfg, b2, Event<int>.CloseStop).subs == map[];
    RunGrows(cfg, run + [b1] + [b2], CloseStop, b3);
    RunGrows(cfg, run + [b1] + [b2] + [b3], Register(0), b4);
    run := run + [b1] + [b2] + [b3] + [b4];
  }

  /** If its worker starts at once, Close never returns. */
  lemma LateSubscriberHangsClose(cfg: Config) returns (run: seq<Bus<int>>)
    ensures IsRun(cfg, run)
    ensures run[|run| - 1].closing.Stopped? && !CloseCanReturn(cfg, run[|run| - 1])
  {
    run := RegisteredAfterStop(cfg);
    var b := run[|run| - 1];
    var b' := b.(subs := map[0 := Sub([], true, false, Looping, [], [], [])], workers := 1);
    RunGrows(cfg, run, StartWorker(0), b');
    run := run + [b'];
    assert Forgotten(b', 0);
    CloseReturnsUnlessForgotten(cfg, run, |run| - 1);
  }

  /** If Close returns before that, the worker runs on a closed bus, and nobody
      has told it to stop. */
  lemma LateSubscriberOutlivesClose(cfg: Config) returns (run: seq<Bus<int>>)
    ensures IsRun(cfg, run)
    ensures run[|run| - 1].closing.Returned? && Forgotten(run[|run| - 1], 0) && !run[|run| - 1].subs[0].stopped
  {
    run := RegisteredAfterStop(cfg);
    var b := run[|run| - 1];
    var b' := b.(closing := Returned);
    RunGrows(cfg, run, CloseReturn, b');
    var b'' := b'.(subs := map[0 := Sub([], true, false, Looping, [], [], [])], workers := 1);
    RunGrows(cfg, run + [b'], StartWorker(0), b'');
    run := run + [b'] + [b''];
  }
}
