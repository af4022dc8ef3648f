// internal/eventbus: what a subscriber that leaves the asynchronous bus loses.
//
// Unsubscribe closes the stop channel, and the worker handles what is queued
// before it exits. A Publish that had listed the subscriber earlier may still
// send to it; what it sends after the exit is never handled.

module AsyncBusLeave {
  import opened Common
  import opened AsyncBus
  import opened AsyncBusClose

  /** A Publish under way has listed this subscriber and not settled its offer. */
  ghost predicate Listed<E>(b: Bus<E>, id: Id) {
    exists p | p in b.publishers :: b.publishers[p].Sending? && id in b.publishers[p].targets
  }

  /** The subscriber has left and nothing sent to it is lost so far. */
  ghost predicate LeftClean<E>(cfg: Config, b: Bus<E>, id: Id) {
    id in b.subs && SubOk(cfg, b.subs[id]) && b.subs[id].stopped && b.subs[id].late == []
  }

  ghost predicate Continuation<E(!new)>(cfg: Config, b: Bus<E>, path: seq<Bus<E>>) {
    && path != [] && path[0] == b
    && forall k | 0 <= k < |path| - 1 :: Next(cfg, path[k], path[k + 1])
  }

  /** Something may yet be sent to this subscriber and never be handled. */
  ghost predicate CanLoseEvent<E(!new)>(cfg: Config, b: Bus<E>, id: Id) {
    exists path: seq<Bus<E>> :: Continuation(cfg, b, path) && Lost(path[|path| - 1], id)
  }

  ghost predicate Lost<E>(b: Bus<E>, id: Id) { id in b.subs && b.subs[id].late != [] }

  /** Nobody lists a subscriber that has left, and who does not list it does not
      send to it. */
  lemma UnlistedStaysClean<E>(cfg: Config, b: Bus<E>, e: Event<E>, id: Id)
    requires LeftClean(cfg, b, id) && !Listed(b, id) && Enabled(cfg, b, e)
    ensures LeftClean(cfg, Step(cfg, b, e), id) && !Listed(Step(cfg, b, e), id)
  {
    UnlistedIsSentNothing(cfg, b, e, id);
    assert id !in Registered(b);
  }

  lemma UnlistedIsSentNothing<E>(cfg: Config, b: Bus<E>, e: Event<E>, id: Id)
    requires LeftClean(cfg, b, id) && !Listed(b, id) && Enabled(cfg, b, e)
    ensures LeftClean(cfg, Step(cfg, b, e), id)
  {
    if Target(e) == Some(id) {
      SubStepKeepsOk(cfg, b.subs[id], e, Payload(b, e));
    }
  }

  lemma {:induction false} UnlistedAlongPath<E(!new)>(cfg: Config, path: seq<Bus<E>>, id: Id, k: nat)
    requires k < |path| && LeftClean(cfg, path[0], id) && !Listed(path[0], id)
    requires forall x | 0 <= x < |path| - 1 :: Next(cfg, path[x], path[x + 1])
    ensures LeftClean(cfg, path[k], id) && !Listed(path[k], id)
  {
    if k > 0 {
      UnlistedAlongPath(cfg, path, id, k - 1);
      assert Next(cfg, path[k - 1], path[k - 1 + 1]);
      var e: Event<E> :| Enabled(cfg, path[k - 1], e) && path[k] == Step(cfg, path[k - 1], e);
      UnlistedStaysClean(cfg, path[k - 1], e, id);
    }
  }

  lemma PrependNext<E(!new)>(cfg: Config, b: Bus<E>, e: Event<E>, rest: seq<Bus<E>>) returns (path: seq<Bus<E>>)
    requires Enabled(cfg, b, e) && Continuation(cfg, Step(cfg, b, e), rest)
    ensures Continuation(cfg, b, path) && path[|path| - 1] == rest[|rest| - 1]
  {
    path := [b] + rest;
    forall k | 0 <= k < |path| - 1
      ensures Next(cfg, path[k], path[k + 1])
    {
      if k > 0 {
        assert Next(cfg, rest[k - 1], rest[k - 1 + 1]);
      }
    }
  }

  /** Publisher p has listed the subscriber: the worker drains and exits first,
      and then the event is sent. */
  lemma {:induction false} PathToLoss<E(!new)>(cfg: Config, b: Bus<E>, id: Id, p: Id) returns (path: seq<Bus<E>>)
    requires Inv(cfg, b) && LeftClean(cfg, b, id)
    requires p in b.publishers && b.publishers[p].Sending? && id in b.publishers[p].targets
    ensures Continuation(cfg, b, path) && Lost(path[|path| - 1], id)
    decreases SubLeft(b.subs[id])
  {
    var e: Event<E>;
    if b.subs[id].worker.Exited? {
      e := Send(p, id);
      path := PrependNext(cfg, b, e, [Step(cfg, b, e)]);
    } else {
      e := StoppedWorkerCanMove(cfg, b, id);
      StepKeepsInv(cfg, b, e);
      SubStepWindsDown(b.subs[id], e, None);
      WorkerLeavesPublishers(cfg, b, e, id);
      path := PathToLoss(cfg, Step(cfg, b, e), id, p);
      path := PrependNext(cfg, b, e, path);
    }
  }

  lemma WorkerLeavesPublishers<E>(cfg: Config, b: Bus<E>, e: Event<E>, id: Id)
    requires LeftClean(cfg, b, id) && Enabled(cfg, b, e) && Target(e) == Some(id) && !e.Unsubscribe? && !e.Send?
    ensures Step(cfg, b, e).publishers == b.publishers && LeftClean(cfg, Step(cfg, b, e), id)
    ensures Step(cfg, b, e).subs == b.subs[id := SubStep(b.subs[id], e, None)]
  {
    SubStepKeepsOk(cfg, b.subs[id], e, None);
  }

  /** A subscriber that has left can lose an event exactly when some Publish
      that is still under way had listed it before it left. */
  lemma LeaverCanLoseIffListed<E(!new)>(cfg: Config, run: seq<Bus<E>>, i: nat, id: Id)
    requires IsRun(cfg, run) && i < |run|
    requires id in run[i].subs && run[i].subs[id].stopped && run[i].subs[id].late == []
    ensures CanLoseEvent(cfg, run[i], id) <==> Listed(run[i], id)
  {
    RunsKeepInv(cfg, run);
    var b := run[i];
    assert Inv(cfg, b);
    if Listed(b, id) {
      var p :| p in b.publishers && b.publishers[p].Sending? && id in b.publishers[p].targets;
      var path := PathToLoss(cfg, b, id, p);
    } else {
      forall path: seq<Bus<E>> | Continuation(cfg, b, path)
        ensures !Lost(path[|path| - 1], id)
      {
        UnlistedAlongPath(cfg, path, id, |path| - 1);
      }
    }
  }

  /** So whoever leaves while no Publish has it on its list has handled
      everything that was sent to it once a quiet Close has returned. */
  lemma UnlistedLeaverIsDrained<E(!new)>(cfg: Config, run: seq<Bus<E>>, x: nat, i: nat, id: Id)
    requires IsRun(cfg, run) && x <= i < |run|
    requires id in run[x].subs && run[x].subs[id].stopped && run[x].subs[id].late == [] && !Listed(run[x], id)
    requires run[i].closing.Returned? && run[i].quiet
    ensures id in run[i].subs && run[i].subs[id].queue == [] && run[i].subs[id].handled == run[i].subs[id].sent
  {
    RunsKeepInv(cfg, run);
    assert Inv(cfg, run[x]);
    var tail := run[x..i + 1];
    var next := (b: Bus<E>, b': Bus<E>) => Next(cfg, b, b');
    forall k | 0 <= k < |tail| - 1
      ensures Next(cfg, tail[k], tail[k + 1])
    {
      assert next(run[x + k], run[x + k + 1]);
    }
    UnlistedAlongPath(cfg, tail, id, i - x);
    QuietCloseDrains(cfg, run, i);
  }
}
