// internal/eventbus: the asynchronous bus.
//
// Each subscriber has a bounded queue and a worker. Steps are the sections
// under the mutex, the atomic accesses to closed and dropped, the channel
// operations, the handler calls and the wait-group operations.

module AsyncBus {
  import opened Common

  type Id = nat

  datatype Worker<E> =
    | NotStarted
    | Looping
    | Handling(e: E, draining: bool)
    | Draining
    | Exited
  {
    predicate Counted() { Looping? || Handling? || Draining? }

    predicate SawStop() { Draining? || Exited? || (Handling? && draining) }

    function InHand(): seq<E> { if Handling? then [e] else [] }
  }

  datatype Sub<E> = Sub(
    queue: seq<E>,
    registered: bool,
    stopped: bool,  // the stop channel is closed
    worker: Worker<E>,
    sent: seq<E>,     // history: every event put into the queue
    handled: seq<E>,  // history: every event the handler has finished
    late: seq<E>)     // history: events sent after the worker had exited

  datatype Publisher<E> = Checked(e: E) | Sending(e: E, targets: set<Id>)

  datatype Closing = NotCalled | Marked | Stopped | Returned

  datatype Bus<E> = Bus(
    closed: bool,
    subs: map<Id, Sub<E>>,
    subscribing: nat,          // Subscribe calls past their closed check
    publishers: map<Id, Publisher<E>>,
    dropped: nat,
    skipped: nat,              // history: sends given up because the subscriber had stopped
    offers: nat,               // history: attempts to send
    workers: int,              // closedWg
    closing: Closing,
    quiet: bool,               // history: nobody was inside Publish or Subscribe when Close began
    openAtClose: set<Id>)      // history: subscribers registered when Close began

  datatype Config = Config(bufferSize: int, dropWhenFull: bool) {
    function Buffer(): (n: nat) ensures n >= 1 { if bufferSize <= 0 then 16 else bufferSize }
  }

  datatype Event<E> =
    | SubscribeCheck
    | Register(id: Id)
    | StartWorker(id: Id)
    | Unsubscribe(id: Id)
    | PublishCheck(p: Id, e: E)
    | Snapshot(p: Id)
    | Send(p: Id, id: Id)
    | Drop(p: Id, id: Id)
    | Skip(p: Id, id: Id)
    | PublishEnd(p: Id)
    | Take(id: Id)
    | Handled(id: Id)
    | SeeStop(id: Id)
    | Exit(id: Id)
    | CloseMark
    | CloseStop
    | CloseReturn

  ghost predicate Offering<E>(b: Bus<E>, p: Id, id: Id) {
    && p in b.publishers && b.publishers[p].Sending?
    && id in b.publishers[p].targets && id in b.subs
  }

  ghost predicate Enabled<E>(cfg: Config, b: Bus<E>, e: Event<E>) {
    match e
    case SubscribeCheck => !b.closed
    case Register(id) => b.subscribing > 0 && id !in b.subs
    case StartWorker(id) => id in b.subs && b.subs[id].worker.NotStarted?
    case Unsubscribe(id) => id in b.subs
    case PublishCheck(p, _) => !b.closed && p !in b.publishers
    case Snapshot(p) => p in b.publishers && b.publishers[p].Checked?
    case Send(p, id) => Offering(b, p, id) && |b.subs[id].queue| < cfg.Buffer()
    case Drop(p, id) => Offering(b, p, id) && cfg.dropWhenFull && |b.subs[id].queue| >= cfg.Buffer()
    case Skip(p, id) => Offering(b, p, id) && !cfg.dropWhenFull && b.subs[id].stopped
    case PublishEnd(p) => p in b.publishers && b.publishers[p].Sending? && b.publishers[p].targets == {}
    case Take(id) =>
      id in b.subs && b.subs[id].queue != [] && (b.subs[id].worker.Looping? || b.subs[id].worker.Draining?)
    case Handled(id) => id in b.subs && b.subs[id].worker.Handling?
    case SeeStop(id) => id in b.subs && b.subs[id].worker.Looping? && b.subs[id].stopped
    case Exit(id) => id in b.subs && b.subs[id].worker.Draining? && b.subs[id].queue == []
    case CloseMark => !b.closed
    case CloseStop => b.closing.Marked?
    case CloseReturn => b.closing.Stopped? && b.workers == 0
  }

  ghost function Registered<E>(b: Bus<E>): set<Id> { set id | id in b.subs && b.subs[id].registered }

  ghost function Stop<E>(s: Sub<E>): Sub<E> { if s.registered then s.(registered := false, stopped := true) else s }

  /** What one event does to the subscriber it names. */
  ghost function SubStep<E>(s: Sub<E>, e: Event<E>, payload: Option<E>): Sub<E> {
    match e
    case StartWorker(_) => s.(worker := Looping)
    case Unsubscribe(_) => Stop(s)
    case Send(_, _) =>
      if payload.None? then s
      else s.(queue := s.queue + [payload.value],
              sent := s.sent + [payload.value],
              late := if s.worker.Exited? then s.late + [payload.value] else s.late)
    case Take(_) =>
      if s.queue == [] then s
      else s.(queue := s.queue[1..], worker := Handling(s.queue[0], s.worker.Draining?))
    case Handled(_) =>
      if !s.worker.Handling? then s
      else s.(handled := s.handled + [s.worker.e], worker := if s.worker.draining then Draining else Looping)
    case SeeStop(_) => s.(worker := Draining)
    case Exit(_) => s.(worker := Exited)
    case _ => s
  }

  ghost function Target<E>(e: Event<E>): Option<Id> {
    match e
    case StartWorker(id) => Some(id)
    case Unsubscribe(id) => Some(id)
    case Send(_, id) => Some(id)
    case Take(id) => Some(id)
    case Handled(id) => Some(id)
    case SeeStop(id) => Some(id)
    case Exit(id) => Some(id)
    case _ => None
  }

  ghost function Payload<E>(b: Bus<E>, e: Event<E>): Option<E> {
    if e.Send? && e.p in b.publishers then Some(b.publishers[e.p].e) else None
  }

  /** A send that has been settled, one way or another. */
  ghost function Settle<E>(b: Bus<E>, p: Id, id: Id): map<Id, Publisher<E>>
    requires Offering(b, p, id)
  {
    b.publishers[p := b.publishers[p].(targets := b.publishers[p].targets - {id})]
  }

  ghost function Step<E>(cfg: Config, b: Bus<E>, e: Event<E>): Bus<E>
    requires Enabled(cfg, b, e)
  {
    var subs := if Target(e).Some? && Target(e).value in b.subs
                then b.subs[Target(e).value := SubStep(b.subs[Target(e).value], e, Payload(b, e))]
                else b.subs;
    match e
    case SubscribeCheck => b.(subscribing := b.subscribing + 1)
    case Register(id) =>
      b.(subs := b.subs[id := Sub([], true, false, NotStarted, [], [], [])], subscribing := b.subscribing - 1)
    case StartWorker(_) => b.(subs := subs, workers := b.workers + 1)
    case Unsubscribe(_) => b.(subs := subs)
    case PublishCheck(p, ev) => b.(publishers := b.publishers[p := Checked(ev)])
    case Snapshot(p) => b.(publishers := b.publishers[p := Sending(b.publishers[p].e, Registered(b))])
    case Send(p, id) => b.(subs := subs, publishers := Settle(b, p, id), offers := b.offers + 1)
    case Drop(p, id) => b.(publishers := Settle(b, p, id), offers := b.offers + 1, dropped := b.dropped + 1)
    case Skip(p, id) => b.(publishers := Settle(b, p, id), offers := b.offers + 1, skipped := b.skipped + 1)
    case PublishEnd(p) => b.(publishers := b.publishers - {p})
    case Take(_) => b.(subs := subs)
    case Handled(_) => b.(subs := subs)
    case SeeStop(_) => b.(subs := subs)
    case Exit(_) => b.(subs := subs, workers := b.workers - 1)
    case CloseMark =>
      b.(closed := true, closing := Marked,
         quiet := b.publishers == map[] && b.subscribing == 0
                  && forall id | id in b.subs :: !b.subs[id].worker.NotStarted?,
         openAtClose := Registered(b))
    case CloseStop => b.(subs := map id | id in b.subs :: Stop(b.subs[id]), closing := Stopped)
    case CloseReturn => b.(closing := Returned)
  }

  ghost predicate Init<E>(b: Bus<E>) {
    b == Bus(false, map[], 0, map[], 0, 0, 0, 0, NotCalled, false, {})
  }

  ghost predicate Next<E(!new)>(cfg: Config, b: Bus<E>, b': Bus<E>) {
    exists e :: Enabled(cfg, b, e) && b' == Step(cfg, b, e)
  }

  ghost predicate IsRun<E(!new)>(cfg: Config, run: seq<Bus<E>>) {
    Behavior(b => Init(b), (b, b') => Next(cfg, b, b'), run)
  }

  // ---------- What every run keeps, subscriber by subscriber ----------

  /** First in, first out: what was sent is what was handled, then the event
      in hand, then the queue. */
  ghost predicate Fifo<E>(s: Sub<E>) {
    s.handled + s.worker.InHand() + s.queue == s.sent
  }

  ghost predicate SubOk<E>(cfg: Config, s: Sub<E>) {
    && Fifo(s)
    && |s.queue| <= cfg.Buffer()
    && (s.registered <==> !s.stopped)
    && (s.worker.SawStop() ==> s.stopped)
    && (if s.worker.Exited? then s.queue == s.late else s.late == [])
  }

  lemma TakeKeepsOrder<E>(handled: seq<E>, queue: seq<E>)
    requires queue != []
    ensures handled + [queue[0]] + queue[1..] == handled + [] + queue
  {
    assert [queue[0]] + queue[1..] == queue;
  }

  lemma HandledKeepsOrder<E>(handled: seq<E>, e: E, queue: seq<E>)
    ensures (handled + [e]) + [] + queue == handled + [e] + queue
  {
  }

  lemma SendKeepsOrder<E>(front: seq<E>, queue: seq<E>, e: E)
    ensures front + (queue + [e]) == (front + queue) + [e]
  {
  }

  lemma SubStepKeepsFifo<E>(s: Sub<E>, e: Event<E>, payload: Option<E>)
    requires Fifo(s)
    requires e.StartWorker? ==> s.worker.NotStarted?
    requires e.Take? ==> s.worker.Looping? || s.worker.Draining?
    requires e.SeeStop? ==> s.worker.Looping?
    requires e.Exit? ==> s.worker.Draining?
    ensures Fifo(SubStep(s, e, payload))
  {
    if e.Send? && payload.Some? {
      SendKeepsOrder(s.handled + s.worker.InHand(), s.queue, payload.value);
    } else if e.Take? && s.queue != [] {
      TakeKeepsOrder(s.handled, s.queue);
    } else if e.Handled? && s.worker.Handling? {
      HandledKeepsOrder(s.handled, s.worker.e, s.queue);
    }
  }

  lemma SubStepKeepsOk<E>(cfg: Config, s: Sub<E>, e: Event<E>, payload: Option<E>)
    requires SubOk(cfg, s)
    requires e.StartWorker? ==> s.worker.NotStarted?
    requires e.Send? ==> |s.queue| < cfg.Buffer()
    requires e.Take? ==> s.worker.Looping? || s.worker.Draining?
    requires e.SeeStop? ==> s.worker.Looping? && s.stopped
    requires e.Exit? ==> s.worker.Draining? && s.queue == []
    ensures SubOk(cfg, SubStep(s, e, payload))
  {
    SubStepKeepsFifo(s, e, payload);
  }

  // ---------- What every run keeps, bus-wide ----------

  ghost function Works<E>(s: Sub<E>): int { if s.worker.Counted() then 1 else 0 }

  ghost function SentCount<E>(s: Sub<E>): int { |s.sent| }

  /** Every attempt to send ended as a send, a drop or a skip; skips happen
      only when publishers wait for room. */
  ghost predicate OffersCounted<E>(cfg: Config, b: Bus<E>) {
    && b.offers == Sum(b.subs, SentCount) + b.dropped + b.skipped
    && (cfg.dropWhenFull ==> b.skipped == 0)
    && (!cfg.dropWhenFull ==> b.dropped == 0)
  }

  /** A Close that nobody overlapped keeps the bus to itself, and no event has
      been sent too late to a subscriber that was registered when it began. */
  ghost predicate QuietClose<E>(b: Bus<E>) {
    b.quiet ==>
      && b.closed
      && b.publishers == map[]
      && b.subscribing == 0
      && (forall id | id in b.subs :: !b.subs[id].worker.NotStarted?)
      && (forall id | id in b.openAtClose :: id in b.subs && b.subs[id].late == [])
      && (b.closing.Returned? ==> b.workers == 0)
      && (b.closing.Stopped? || b.closing.Returned? ==> forall id | id in b.subs :: !b.subs[id].registered)
  }

  /** Publishers only send to subscribers there have been. */
  ghost predicate TargetsExist<E>(b: Bus<E>) {
    forall p | p in b.publishers && b.publishers[p].Sending? :: b.publishers[p].targets <= b.subs.Keys
  }

  ghost predicate Inv<E>(cfg: Config, b: Bus<E>) {
    && (forall id | id in b.subs :: SubOk(cfg, b.subs[id]))
    && b.workers == Sum(b.subs, Works)
    && OffersCounted(cfg, b)
    && (b.closed <==> !b.closing.NotCalled?)
    && QuietClose(b)
    && TargetsExist(b)
  }

  /** The events at which one subscriber changes. */
  lemma SubEventKeepsSubs<E>(cfg: Config, b: Bus<E>, e: Event<E>)
    requires Inv(cfg, b) && Enabled(cfg, b, e) && Target(e).Some?
    ensures var id, subs' := Target(e).value, Step(cfg, b, e).subs;
            && id in b.subs && subs' == b.subs[id := SubStep(b.subs[id], e, Payload(b, e))]
            && (forall i | i in subs' :: SubOk(cfg, subs'[i]))
            && Sum(subs', Works) == Sum(b.subs, Works) + Works(subs'[id]) - Works(b.subs[id])
            && Sum(subs', SentCount) == Sum(b.subs, SentCount) + SentCount(subs'[id]) - SentCount(b.subs[id])
  {
    var id := Target(e).value;
    var s' := SubStep(b.subs[id], e, Payload(b, e));
    SubStepKeepsOk(cfg, b.subs[id], e, Payload(b, e));
    SumUpdate(b.subs, id, s', Works);
    SumUpdate(b.subs, id, s', SentCount);
  }

  lemma SubEventKeepsCounts<E>(cfg: Config, b: Bus<E>, e: Event<E>)
    requires Inv(cfg, b) && Enabled(cfg, b, e) && Target(e).Some?
    ensures var b' := Step(cfg, b, e);
            && (forall i | i in b'.subs :: SubOk(cfg, b'.subs[i]))
            && b'.workers == Sum(b'.subs, Works)
            && OffersCounted(cfg, b')
  {
    SubEventKeepsSubs(cfg, b, e);
  }

  /** After a quiet Close has returned, workers do nothing any more. */
  lemma SubEventKeepsClose<E>(cfg: Config, b: Bus<E>, e: Event<E>)
    requires QuietClose(b) && b.workers == Sum(b.subs, Works) && Enabled(cfg, b, e) && Target(e).Some?
    ensures QuietClose(Step(cfg, b, e))
  {
    var s, s' := b.subs[Target(e).value], SubStep(b.subs[Target(e).value], e, Payload(b, e));
    assert s'.registered ==> s.registered;
    if b.quiet && b.closing.Returned? {
      SumBounds(b.subs, Works);
      assert Works(s) <= 0;
    }
  }

  lemma SubEventKeepsTargets<E>(cfg: Config, b: Bus<E>, e: Event<E>)
    requires TargetsExist(b) && Enabled(cfg, b, e) && Target(e).Some?
    ensures TargetsExist(Step(cfg, b, e))
  {
    assert Step(cfg, b, e).subs.Keys == b.subs.Keys;
  }

  lemma SubEventKeepsInv<E>(cfg: Config, b: Bus<E>, e: Event<E>)
    requires Inv(cfg, b) && Enabled(cfg, b, e) && Target(e).Some?
    ensures Inv(cfg, Step(cfg, b, e))
  {
    SubEventKeepsCounts(cfg, b, e);
    SubEventKeepsClose(cfg, b, e);
    SubEventKeepsTargets(cfg, b, e);
  }

  lemma RegisterKeepsInv<E>(cfg: Config, b: Bus<E>, id: Id)
    requires Inv(cfg, b) && Enabled(cfg, b, Event<E>.Register(id))
    ensures Inv(cfg, Step(cfg, b, Event<E>.Register(id)))
  {
    var fresh': Sub<E> := Sub([], true, false, NotStarted, [], [], []);
    assert Fifo(fresh');
    SumUpdate(b.subs, id, fresh', Works);
    SumUpdate(b.subs, id, fresh', SentCount);
  }

  lemma StoppingKeepsSums<E>(subs: map<Id, Sub<E>>, subs': map<Id, Sub<E>>)
    requires subs'.Keys == subs.Keys && forall id | id in subs :: subs'[id] == Stop(subs[id])
    ensures Sum(subs', Works) == Sum(subs, Works) && Sum(subs', SentCount) == Sum(subs, SentCount)
  {
    SumSame(subs, subs', Works, Works);
    SumSame(subs, subs', SentCount, SentCount);
  }

  lemma CloseStopKeepsSubs<E>(cfg: Config, subs: map<Id, Sub<E>>, subs': map<Id, Sub<E>>)
    requires forall id | id in subs :: SubOk(cfg, subs[id])
    requires subs'.Keys == subs.Keys && forall id | id in subs :: subs'[id] == Stop(subs[id])
    ensures forall id | id in subs' :: SubOk(cfg, subs'[id]) && !subs'[id].registered
    ensures forall id | id in subs' :: subs'[id].late == subs[id].late && subs'[id].worker == subs[id].worker
  {
    forall id | id in subs'
      ensures SubOk(cfg, subs'[id])
    {
      SubStepKeepsOk(cfg, subs[id], Event<E>.Unsubscribe(id), None);
      assert subs'[id] == SubStep(subs[id], Event<E>.Unsubscribe(id), None);
    }
  }

  lemma CloseStopKeepsClose<E>(cfg: Config, b: Bus<E>)
    requires QuietClose(b) && TargetsExist(b) && Enabled(cfg, b, Event<E>.CloseStop)
    ensures QuietClose(Step(cfg, b, Event<E>.CloseStop)) && TargetsExist(Step(cfg, b, Event<E>.CloseStop))
  {
    assert Step(cfg, b, Event<E>.CloseStop).subs.Keys == b.subs.Keys;
  }

  lemma CloseStopKeepsInv<E>(cfg: Config, b: Bus<E>)
    requires Inv(cfg, b) && Enabled(cfg, b, Event<E>.CloseStop)
    ensures Inv(cfg, Step(cfg, b, Event<E>.CloseStop))
  {
    var b' := Step(cfg, b, Event<E>.CloseStop);
    assert b'.subs.Keys == b.subs.Keys;
    StoppingKeepsSums(b.subs, b'.subs);
    CloseStopKeepsSubs(cfg, b.subs, b'.subs);
    CloseStopKeepsClose(cfg, b);
    assert OffersCounted(cfg, b');
  }

  lemma StepKeepsInv<E>(cfg: Config, b: Bus<E>, e: Event<E>)
    requires Inv(cfg, b) && Enabled(cfg, b, e)
    ensures Inv(cfg, Step(cfg, b, e))
  {
    if Target(e).Some? {
      SubEventKeepsInv(cfg, b, e);
    } else if e.Register? {
      RegisterKeepsInv(cfg, b, e.id);
    } else if e.CloseStop? {
      CloseStopKeepsInv(cfg, b);
    }
  }

  lemma RunsKeepInv<E(!new)>(cfg: Config, run: seq<Bus<E>>)
    requires IsRun(cfg, run)
    ensures forall i | 0 <= i < |run| :: Inv(cfg, run[i])
  {
    var init, next, inv :=
      (b: Bus<E>) => Init(b), (b: Bus<E>, b': Bus<E>) => Next(cfg, b, b'), (b: Bus<E>) => Inv(cfg, b);
    forall b, b' | inv(b) && next(b, b')
      ensures inv(b')
    {
      var e :| Enabled(cfg, b, e) && b' == Step(cfg, b, e);
      StepKeepsInv(cfg, b, e);
    }
    Invariance(init, next, inv, run);
    forall i | 0 <= i < |run|
      ensures Inv(cfg, run[i])
    {
      assert inv(run[i]);
    }
  }

  /** In every state, for each subscriber: order is kept and nothing is lost
      between a send and the handler; and every offer is accounted for. */
  lemma DeliveryIsFifo<E(!new)>(cfg: Config, run: seq<Bus<E>>, i: nat)
    requires IsRun(cfg, run) && i < |run|
    ensures forall id | id in run[i].subs :: Fifo(run[i].subs[id]) && |run[i].subs[id].queue| <= cfg.Buffer()
    ensures OffersCounted(cfg, run[i])
  {
    RunsKeepInv(cfg, run);
    assert Inv(cfg, run[i]);
  }

  /** When a Close that overlapped no Publish or Subscribe has returned, every
      worker has exited, and a subscriber's queue is empty, with everything
      sent to it handled, exactly when nothing was sent to it after its worker
      had exited; that includes everyone registered when Close began. */
  lemma QuietCloseDrains<E(!new)>(cfg: Config, run: seq<Bus<E>>, i: nat)
    requires IsRun(cfg, run) && i < |run|
    requires run[i].closing.Returned? && run[i].quiet
    ensures forall id | id in run[i].subs ::
      && run[i].subs[id].worker.Exited?
      && (run[i].subs[id].queue == [] <==> run[i].subs[id].late == [])
      && (run[i].subs[id].handled == run[i].subs[id].sent <==> run[i].subs[id].late == [])
    ensures forall id | id in run[i].openAtClose ::
      id in run[i].subs && run[i].subs[id].queue == [] && run[i].subs[id].handled == run[i].subs[id].sent
  {
    RunsKeepInv(cfg, run);
    var b := run[i];
    assert Inv(cfg, b);
    SumBounds(b.subs, Works);
    forall id | id in b.subs
      ensures b.subs[id].worker.Exited?
      ensures b.subs[id].handled == b.subs[id].sent <==> b.subs[id].late == []
    {
      var s := b.subs[id];
      assert Works(s) <= 0;
      assert SubOk(cfg, s);
      assert s.handled + [] + s.queue == s.handled + s.queue == s.sent;
    }
  }

  /** Nobody is inside Publish or Subscribe, and every worker has started. */
  ghost predicate NobodyInside<E>(b: Bus<E>) {
    b.publishers == map[] && b.subscribing == 0 && forall id | id in b.subs :: !b.subs[id].worker.NotStarted?
  }

  lemma {:induction false} CloseIsRemembered<E(!new)>(cfg: Config, run: seq<Bus<E>>, h: nat, i: nat)
    requires IsRun(cfg, run) && h < i < |run| && run[h].closing.NotCalled? && run[h + 1].closing.Marked?
    ensures run[i].openAtClose == Registered(run[h]) && run[i].quiet == NobodyInside(run[h])
    ensures !run[i].closing.NotCalled?
    decreases i
  {
    var next := (b: Bus<E>, b': Bus<E>) => Next(cfg, b, b');
    assert next(run[i - 1], run[i - 1 + 1]);
    if h + 1 < i {
      CloseIsRemembered(cfg, run, h, i - 1);
      ClosedStays(cfg, run, i - 1);
      StepRemembersClose(cfg, run[i - 1], run[i]);
    } else {
      MarkRemembers(cfg, run[h], run[i]);
    }
  }

  lemma ClosedStays<E(!new)>(cfg: Config, run: seq<Bus<E>>, i: nat)
    requires IsRun(cfg, run) && i < |run| && !run[i].closing.NotCalled?
    ensures run[i].closed
  {
    RunsKeepInv(cfg, run);
    assert Inv(cfg, run[i]);
  }

  lemma MarkRemembers<E(!new)>(cfg: Config, b: Bus<E>, b': Bus<E>)
    requires Next(cfg, b, b') && b.closing.NotCalled? && b'.closing.Marked?
    ensures b'.openAtClose == Registered(b) && b'.quiet == NobodyInside(b)
  {
    var e: Event<E> :| Enabled(cfg, b, e) && b' == Step(cfg, b, e);
    if !e.CloseMark? {
      OthersRememberClose(cfg, b, e);
    }
  }

  lemma StepRemembersClose<E(!new)>(cfg: Config, b: Bus<E>, b': Bus<E>)
    requires Next(cfg, b, b') && b.closed && !b.closing.NotCalled?
    ensures b'.openAtClose == b.openAtClose && b'.quiet == b.quiet && !b'.closing.NotCalled?
  {
    var e: Event<E> :| Enabled(cfg, b, e) && b' == Step(cfg, b, e);
    OthersRememberClose(cfg, b, e);
  }

  lemma OthersRememberClose<E>(cfg: Config, b: Bus<E>, e: Event<E>)
    requires Enabled(cfg, b, e) && !e.CloseMark?
    ensures var b' := Step(cfg, b, e);
            && b'.openAtClose == b.openAtClose && b'.quiet == b.quiet
            && (b'.closing.NotCalled? <==> b.closing.NotCalled?)
  {
  }

  /** Seen from the call: when Close begins while nobody is inside Publish or
      Subscribe, whoever is registered then has handled everything that was sent
      to it once Close has returned. */
  lemma QuietCloseDrainsRegistered<E(!new)>(cfg: Config, run: seq<Bus<E>>, h: nat, i: nat, id: Id)
    requires IsRun(cfg, run) && h < i < |run| && run[h].closing.NotCalled? && run[h + 1].closing.Marked?
    requires NobodyInside(run[h]) && id in run[h].subs && run[h].subs[id].registered && run[i].closing.Returned?
    ensures id in run[i].subs && run[i].subs[id].worker.Exited?
    ensures run[i].subs[id].queue == [] && run[i].subs[id].handled == run[i].subs[id].sent
  {
    CloseIsRemembered(cfg, run, h, i);
    QuietCloseDrains(cfg, run, i);
  }

  lemma RunGrows<E(!new)>(cfg: Config, run: seq<Bus<E>>, e: Event<E>, b: Bus<E>)
    requires IsRun(cfg, run) && Enabled(cfg, run[|run| - 1], e) && b == Step(cfg, run[|run| - 1], e)
    ensures IsRun(cfg, run + [b])
  {
    var init, next := (b: Bus<E>) => Init(b), (b: Bus<E>, b': Bus<E>) => Next(cfg, b, b');
    assert Behavior(init, next, run);
    BehaviorGrows(init, next, run, b);
  }

  lemma PublishListsSubscriber(cfg: Config) returns (run: seq<Bus<int>>)
    ensures IsRun(cfg, run)
    ensures run[|run| - 1] == Bus(false, map[0 := Sub([], true, false, Looping, [], [], [])], 0,
                                  map[0 := Sending(7, {0})], 0, 0, 0, 1, NotCalled, false, {})
  {
    var b0: Bus<int> := Bus(false, map[], 0, map[], 0, 0, 0, 0, NotCalled, false, {});
    var b1 := b0.(subscribing := 1);
    var b2 := b0.(subs := map[0 := Sub([], true, false, NotStarted, [], [], [])]);
    var b3 := b0.(subs := map[0 := Sub([], true, false, Looping, [], [], [])], workers := 1);
    var b4 := b3.(publishers := map[0 := Checked(7)]);
    assert Registered(b4) == {0};
    run := [b0];
    RunGrows(cfg, run, SubscribeCheck, b1);
    RunGrows(cfg, run + [b1], Register(0), b2);
    RunGrows(cfg, run + [b1] + [b2], StartWorker(0), b3);
    RunGrows(cfg, run + [b1] + [b2] + [b3], PublishCheck(0, 7), b4);
    run := run + [b1] + [b2] + [b3] + [b4];
    RunGrows(cfg, run, Snapshot(0), b4.(publishers := map[0 := Sending(7, {0})]));
    run := run + [b4.(publishers := map[0 := Sending(7, {0})])];
  }

  lemma SubscriberLeavesBeforeSend(cfg: Config) returns (run: seq<Bus<int>>)
    ensures IsRun(cfg, run)
    ensures run[|run| - 1] == Bus(false, map[0 := Sub([7], false, true, Exited, [7], [], [7])], 0,
                                  map[], 0, 0, 1, 0, NotCalled, false, {})
  {
    run := PublishListsSubscriber(cfg);
    var b5 := run[|run| - 1];
    var b6 := b5.(subs := map[0 := Sub([], false, true, Looping, [], [], [])]);
    var b7 := b5.(subs := map[0 := Sub([], false, true, Draining, [], [], [])]);
    var b8 := b5.(subs := map[0 := Sub([], false, true, Exited, [], [], [])], workers := 0);
    var b9 := b8.(subs := map[0 := Sub([7], false, true, Exited, [7], [], [7])],
                  publishers := map[0 := Sending(7, {})], offers := 1);
    RunGrows(cfg, run, Unsubscribe(0), b6);
    RunGrows(cfg, run + [b6], SeeStop(0), b7);
    RunGrows(cfg, run + [b6] + [b7], Exit(0), b8);
    assert Settle(b8, 0, 0) == map[0 := Sending(7, {})] by {
      assert b8.publishers[0].targets - {0} == {};
    }
    assert SubStep(b8.subs[0], Send(0, 0), Some(7)) == b9.subs[0] by {
      assert b8.subs[0].queue + [7] == [7];
    }
    RunGrows(cfg, run + [b6] + [b7] + [b8], Send(0, 0), b9);
    run := run + [b6] + [b7] + [b8] + [b9];
    assert b9.publishers - {0} == map[];
    RunGrows(cfg, run, PublishEnd(0), b9.(publishers := map[]));
    run := run + [b9.(publishers := map[])];
  }

  /** An event can be lost without overlapping Close at all: a Publish that has
      listed a subscriber sends to it after it has unsubscribed and its worker
      has drained and gone. The event then stays in its queue for good. */
  lemma UnsubscribeRaceLosesEvent(cfg: Config) returns (run: seq<Bus<int>>)
    ensures IsRun(cfg, run)
    ensures var b := run[|run| - 1];
            b.closing.Returned? && b.quiet && 0 in b.subs && b.subs[0].sent == [7] && b.subs[0].handled == []
  {
    run := SubscriberLeavesBeforeSend(cfg);
    var b10 := run[|run| - 1];
    assert Registered(b10) == {};
    var b11 := b10.(closed := true, closing := Marked, quiet := true);
    var b12 := b11.(closing := Stopped);
    var b13 := b11.(closing := Returned);
    RunGrows(cfg, run, CloseMark, b11);
    assert Step(cfg, b11, Event<int>.CloseStop).subs == b11.subs;
    RunGrows(cfg, run + [b11], CloseStop, b12);
    RunGrows(cfg, run + [b11] + [b12], CloseReturn, b13);
    run := run + [b11] + [b12] + [b13];
  }

  // ---------- The bus object ----------

  /** The fields of Async and the channels of its subscribers. */
  datatype Fields<E> = Fields(
    closed: bool,
    nextID: Id,
    subs: set<Id>,            // registered subscribers
    queues: map<Id, seq<E>>,  // every channel ever made
    stopped: set<Id>,         // closed stop channels
    dropped: nat)
  {
    function AfterRegister(): Fields<E> {
      this.(nextID := nextID + 1, subs := subs + {nextID}, queues := queues[nextID := []])
    }

    function AfterUnsubscribe(id: Id): Fields<E> {
      if id in subs then this.(subs := subs - {id}, stopped := stopped + {id}) else this
    }

    function AfterSend(id: Id, e: E): Fields<E>
      requires id in queues
    {
      this.(queues := queues[id := queues[id] + [e]])
    }

    function AfterClose(): Fields<E> { this.(subs := {}, stopped := stopped + subs) }
  }

  /** The fields show one subscriber of the bus as it is. */
  ghost predicate Shows<E>(f: Fields<E>, id: Id, s: Sub<E>) {
    && id < f.nextID
    && id in f.queues && f.queues[id] == s.queue
    && (id in f.subs <==> s.registered)
    && (id in f.stopped <==> s.stopped)
    && (s.registered ==> !s.stopped)
  }

  /** The fields show this state of the bus. */
  ghost predicate Mirrors<E>(f: Fields<E>, b: Bus<E>) {
    && f.closed == b.closed && f.dropped == b.dropped
    && f.queues.Keys == b.subs.Keys && f.subs <= b.subs.Keys && f.stopped <= b.subs.Keys
    && forall id | id in b.subs :: Shows(f, id, b.subs[id])
  }

  lemma RegisterIsMirrored<E>(cfg: Config, f: Fields<E>, b: Bus<E>)
    requires Mirrors(f, b) && b.subscribing > 0
    ensures f.nextID !in b.subs && Mirrors(f.AfterRegister(), Step(cfg, b, Event<E>.Register(f.nextID)))
  {
  }

  lemma UnsubscribeIsMirrored<E>(cfg: Config, f: Fields<E>, b: Bus<E>, id: Id)
    requires Mirrors(f, b) && id in b.subs
    ensures Mirrors(f.AfterUnsubscribe(id), Step(cfg, b, Event<E>.Unsubscribe(id)))
  {
  }

  lemma SendIsMirrored<E>(cfg: Config, f: Fields<E>, b: Bus<E>, p: Id, id: Id)
    requires Mirrors(f, b) && Offering(b, p, id) && |f.queues[id]| < cfg.Buffer()
    ensures Mirrors(f.AfterSend(id, b.publishers[p].e), Step(cfg, b, Event<E>.Send(p, id)))
  {
  }

  lemma CloseIsMirrored<E>(cfg: Config, f: Fields<E>, b: Bus<E>)
    requires Mirrors(f, b) && b.closing.Marked?
    ensures Mirrors(f.AfterClose(), Step(cfg, b, Event<E>.CloseStop))
  {
  }

  /** The subscribers among these whose queues have no room. */
  ghost function Full<E>(cfg: Config, queues: map<Id, seq<E>>, ids: set<Id>): set<Id> {
    set id | id in ids && id in queues && |queues[id]| >= cfg.Buffer()
  }

  /** One offer: the event goes last into the queue, or is counted as a drop. */
  ghost function AfterOffer<E>(cfg: Config, f: Fields<E>, id: Id, e: E): Fields<E>
    requires id in f.queues
  {
    if |f.queues[id]| < cfg.Buffer() then f.AfterSend(id, e) else f.(dropped := f.dropped + 1)
  }

  /** An event has been offered to each of these subscribers: those with room
      have it last in their queues, the others are counted as drops. */
  ghost function AfterOffers<E>(cfg: Config, f: Fields<E>, ids: set<Id>, e: E): Fields<E> {
    f.(queues := map id | id in f.queues ::
         if id in ids && |f.queues[id]| < cfg.Buffer() then f.queues[id] + [e] else f.queues[id],
       dropped := f.dropped + |Full(cfg, f.queues, ids)|)
  }

  lemma NoOffers<E>(cfg: Config, f: Fields<E>, e: E)
    ensures AfterOffers(cfg, f, {}, e) == f
  {
  }

  lemma FullGrows<E>(cfg: Config, queues: map<Id, seq<E>>, ids: set<Id>, id: Id)
    requires id in queues && id !in ids
    ensures |Full(cfg, queues, ids + {id})| == |Full(cfg, queues, ids)| + if |queues[id]| < cfg.Buffer() then 0 else 1
  {
    if |queues[id]| < cfg.Buffer() {
      assert Full(cfg, queues, ids + {id}) == Full(cfg, queues, ids);
    } else {
      assert Full(cfg, queues, ids + {id}) == Full(cfg, queues, ids) + {id};
    }
  }

  lemma SomeoneIsFull<E>(cfg: Config, queues: map<Id, seq<E>>, ids: set<Id>, id: Id)
    requires id in ids && id in queues && |queues[id]| >= cfg.Buffer()
    ensures Full(cfg, queues, ids) != {}
  {
    assert id in Full(cfg, queues, ids);
  }

  lemma OneMoreOffer<E>(cfg: Config, f: Fields<E>, ids: set<Id>, id: Id, e: E)
    requires id in f.queues && id !in ids
    ensures AfterOffer(cfg, AfterOffers(cfg, f, ids, e), id, e) == AfterOffers(cfg, f, ids + {id}, e)
  {
    FullGrows(cfg, f.queues, ids, id);
  }

  /** While nobody is full nothing is dropped. */
  lemma RoomMeansSent<E>(cfg: Config, f: Fields<E>, ids: set<Id>, id: Id, e: E)
    requires id in f.queues && id !in ids && Full(cfg, f.queues, ids) == {}
    requires |AfterOffers(cfg, f, ids, e).queues[id]| < cfg.Buffer()
    ensures Full(cfg, f.queues, ids + {id}) == {}
    ensures AfterOffers(cfg, f, ids, e).AfterSend(id, e) == AfterOffers(cfg, f, ids + {id}, e)
  {
    OneMoreOffer(cfg, f, ids, id, e);
    assert |f.queues[id]| < cfg.Buffer();
  }

  lemma DoneGrows<T>(all: set<T>, left: set<T>, x: T)
    requires x in left && left <= all
    ensures (all - left) + {x} == all - (left - {x})
  {
  }

  lemma OverwriteTwice<K, V>(m: map<K, V>, k: K, first: V, second: V)
    ensures m[k := first][k := second] == m[k := second]
  {
  }

  lemma OverwriteSame<K, V>(m: map<K, V>, k: K)
    requires k in m
    ensures m[k := m[k]] == m
  {
  }

  lemma RemoveNew<K, V>(m: map<K, V>, k: K, v: V)
    requires k !in m
    ensures m[k := v] - {k} == m
  {
  }

  /** A subscriber that the event was offered to has it last in its queue if
      there was room; nothing happens to the other queues. */
  ghost predicate OfferedTo<E>(
      cfg: Config, id: Id, e: E, before: map<Id, seq<E>>, after: map<Id, seq<E>>, offered: bool)
  {
    && id in before && id in after
    && var room := |before[id]| < if cfg.bufferSize <= 0 then 16 else cfg.bufferSize;
       after[id] == if offered && room then before[id] + [e] else before[id]
  }

  lemma OffersMade<E>(cfg: Config, f: Fields<E>, f': Fields<E>, ids: set<Id>, e: E)
    requires f' == AfterOffers(cfg, f, ids, e)
    ensures forall id | id in f'.queues :: OfferedTo(cfg, id, e, f.queues, f'.queues, id in ids)
  {
  }

  datatype Offered = Sent | Skipped | Blocked

  /** The locked sections and channel operations of Async; b is the same state
      with the workers, the publishers and the history around it. */
  class Async<E> {
    const cfg: Config
    var closed: bool
    var nextID: Id
    var subs: set<Id>
    var queues: map<Id, seq<E>>
    var stopped: set<Id>
    var dropped: nat
    ghost var b: Bus<E>

    ghost function View(): Fields<E> reads this { Fields(closed, nextID, subs, queues, stopped, dropped) }

    ghost predicate Valid() reads this { Mirrors(View(), b) }

    constructor (cfg: Config)
      ensures Valid() && Init(b) && this.cfg == cfg
    {
      this.cfg := cfg;
      closed, nextID, subs, queues, stopped, dropped := false, 0, {}, map[], {}, 0;
      b := Bus(false, map[], 0, map[], 0, 0, 0, 0, NotCalled, false, {});
    }

    /** The locked section of Subscribe. */
    method SubscribeLocked() returns (id: Id)
      requires Valid() && b.subscribing > 0
      modifies this
      ensures Valid() && id == old(nextID) && View() == old(View()).AfterRegister()
      ensures id !in old(b).subs && b == Step(cfg, old(b), Event<E>.Register(id))
      ensures subs == old(subs) + {id} && queues == old(queues)[id := []] && nextID == old(nextID) + 1
      ensures closed == old(closed) && stopped == old(stopped) && dropped == old(dropped)
    {
      RegisterIsMirrored(cfg, View(), b);
      id := nextID;
      b := Step(cfg, b, Event<E>.Register(id));
      nextID := nextID + 1;
      subs := subs + {id};
      queues := queues[id := []];
    }

    /** The locked section of an Unsubscribe: the stop channel is closed once. */
    method UnsubscribeLocked(id: Id)
      requires Valid() && id in b.subs
      modifies this
      ensures Valid() && View() == old(View()).AfterUnsubscribe(id)
      ensures b == Step(cfg, old(b), Event<E>.Unsubscribe(id))
      ensures subs == old(subs) - {id} && stopped == old(stopped) + (if id in old(subs) then {id} else {})
      ensures closed == old(closed) && queues == old(queues) && dropped == old(dropped)
    {
      UnsubscribeIsMirrored(cfg, View(), b, id);
      b := Step(cfg, b, Event<E>.Unsubscribe(id));
      if id in subs {
        subs := subs - {id};
        stopped := stopped + {id};
      }
    }

    /** The locked section of Publish. */
    method Snapshot(ghost p: Id) returns (targets: set<Id>)
      requires Valid() && Enabled(cfg, b, Event<E>.Snapshot(p))
      modifies this`b
      ensures Valid() && b == Step(cfg, old(b), Event<E>.Snapshot(p))
      ensures targets == subs && b.publishers == old(b.publishers)[p := Sending(old(b.publishers[p].e), targets)]
    {
      targets := subs;
      assert targets == Registered(b);
      b := Step(cfg, b, Event<E>.Snapshot(p));
    }

    /** The select with a default: the event is queued, or dropped and counted. */
    method OfferOrDrop(ghost p: Id, id: Id, e: E)
      requires Valid() && cfg.dropWhenFull && Offering(b, p, id) && b.publishers[p].e == e
      modifies this`queues, this`dropped, this`b
      ensures var room := |old(queues)[id]| < if cfg.bufferSize <= 0 then 16 else cfg.bufferSize;
              && queues == (if room then old(queues)[id := old(queues)[id] + [e]] else old(queues))
              && dropped == old(dropped) + (if room then 0 else 1)
      ensures Valid() && View() == AfterOffer(cfg, old(View()), id, e)
      ensures
        b == Step(cfg, old(b),
                  if |old(queues)[id]| < cfg.Buffer() then Event<E>.Send(p, id) else Event<E>.Drop(p, id))
      ensures b.publishers == Settle(old(b), p, id)
    {
      if |queues[id]| < cfg.Buffer() {
        SendIsMirrored(cfg, View(), b, p, id);
        b := Step(cfg, b, Event<E>.Send(p, id));
        queues := queues[id := queues[id] + [e]];
      } else {
        b := Step(cfg, b, Event<E>.Drop(p, id));
        dropped := dropped + 1;
      }
    }

    /** The select that waits for room or for the stop channel; when both are
        ready the choice is arbitrary. */
    method OfferOrSkip(ghost p: Id, id: Id, e: E, preferStop: bool) returns (r: Offered)
      requires Valid() && !cfg.dropWhenFull && Offering(b, p, id) && b.publishers[p].e == e
      modifies this`queues, this`b
      ensures queues == if r.Sent? then old(queues)[id := old(queues)[id] + [e]] else old(queues)
      ensures var room := |old(queues)[id]| < if cfg.bufferSize <= 0 then 16 else cfg.bufferSize;
              && (r.Sent? ==> room) && (r.Skipped? ==> id in stopped) && (r.Blocked? <==> !room && id !in stopped)
      ensures Valid() && View() == if r.Sent? then old(View()).AfterSend(id, e) else old(View())
      ensures match r
              case Sent => |old(queues)[id]| < cfg.Buffer() && b == Step(cfg, old(b), Event<E>.Send(p, id))
              case Skipped => id in stopped && b == Step(cfg, old(b), Event<E>.Skip(p, id))
              case Blocked => |old(queues)[id]| >= cfg.Buffer() && id !in stopped && b == old(b)
    {
      if |queues[id]| < cfg.Buffer() && !(preferStop && id in stopped) {
        SendIsMirrored(cfg, View(), b, p, id);
        b := Step(cfg, b, Event<E>.Send(p, id));
        queues := queues[id := queues[id] + [e]];
        return Sent;
      }
      if id in stopped {
        b := Step(cfg, b, Event<E>.Skip(p, id));
        return Skipped;
      }
      return Blocked;
    }

    /** Publish, as far as it gets without waiting. On an open bus the event is
        offered to every registered subscriber. With DropWhenFull that never
        blocks. Without it nothing is dropped, and a full queue may leave some
        subscribers for later. On a closed bus nothing happens. */
    method Publish(ghost p: Id, e: E) returns (left: set<Id>)
      requires Valid() && p !in b.publishers
      modifies this`queues, this`dropped, this`b
      ensures Valid() && left <= subs && (closed || cfg.dropWhenFull ==> left == {})
      ensures b.publishers == if left == {} then old(b.publishers) else old(b.publishers)[p := Sending(e, left)]
      ensures View() == if closed then old(View()) else AfterOffers(cfg, old(View()), subs - left, e)
      ensures !cfg.dropWhenFull ==> dropped == old(dropped)
      ensures left != {} ==> Full(cfg, old(queues), left) != {}
      ensures !closed ==> forall id | id in queues :: OfferedTo(cfg, id, e, old(queues), queues, id in subs - left)
    {
      left := {};
      if closed {
        return;
      }
      ghost var publishers := b.publishers;
      b := Step(cfg, b, Event<E>.PublishCheck(p, e));
      var targets := Snapshot(p);
      OverwriteTwice(publishers, p, Checked(e), Sending(e, targets));
      NothingOfferedYet(p, e, targets);
      left := DeliverToAll(p, e, targets);
      OverwriteTwice(publishers, p, Sending(e, targets), Sending(e, left));
      OffersMade(cfg, old(View()), View(), targets - left, e);
      if left == {} {
        RemoveNew(publishers, p, Sending(e, {}));
        b := Step(cfg, b, Event<E>.PublishEnd(p));
      }
    }

    /** Publisher p has offered e to the subscribers in done and not yet to
        those in left; f and publishers are from before. */
    ghost predicate Midway(p: Id, e: E, f: Fields<E>, publishers: map<Id, Publisher<E>>, done: set<Id>, left: set<Id>)
      reads this
    {
      && Valid()
      && done !! left && left <= b.subs.Keys && left !! stopped
      && b.publishers == publishers[p := Sending(e, left)]
      && View() == AfterOffers(cfg, f, done, e)
      && (!cfg.dropWhenFull ==> Full(cfg, f.queues, done) == {})
    }

    /** The loop of Publish, up to a full queue that it has to wait for. */
    method DeliverToAll(ghost p: Id, e: E, ids: set<Id>) returns (left: set<Id>)
      requires Midway(p, e, View(), b.publishers, {}, ids)
      modifies this`queues, this`dropped, this`b
      ensures left <= ids && Midway(p, e, old(View()), old(b.publishers), ids - left, left)
      ensures cfg.dropWhenFull ==> left == {}
      ensures left != {} ==> Full(cfg, old(queues), left) != {}
    {
      left := ids;
      ghost var f, publishers := View(), b.publishers;
      assert ids - left == {};
      while left != {}
        invariant left <= ids && Midway(p, e, f, publishers, ids - left, left)
        decreases left
      {
        var id :| id in left;
        var blocked := OfferNext(p, e, id, f, publishers, ids - left, left);
        if blocked {
          SomeoneIsFull(cfg, f.queues, left, id);
          return;
        }
        DoneGrows(ids, left, id);
        left := left - {id};
      }
    }

    lemma NothingOfferedYet(p: Id, e: E, ids: set<Id>)
      requires Valid() && ids <= b.subs.Keys && ids !! stopped
      requires p in b.publishers && b.publishers[p] == Sending(e, ids)
      ensures Midway(p, e, View(), b.publishers, {}, ids)
    {
      NoOffers(cfg, View(), e);
      OverwriteSame(b.publishers, p);
    }

    /** One turn of it. */
    method OfferNext(ghost p: Id, e: E, id: Id, ghost f: Fields<E>, ghost publishers: map<Id, Publisher<E>>,
                     ghost done: set<Id>, ghost left: set<Id>)
      returns (blocked: bool)
      requires Midway(p, e, f, publishers, done, left) && id in left
      modifies this`queues, this`dropped, this`b
      ensures blocked ==> !cfg.dropWhenFull && id in f.queues && |f.queues[id]| >= cfg.Buffer()
      ensures if blocked then Midway(p, e, f, publishers, done, left)
              else Midway(p, e, f, publishers, done + {id}, left - {id})
    {
      OverwriteTwice(publishers, p, Sending(e, left), Sending(e, left - {id}));
      if cfg.dropWhenFull {
        OneMoreOffer(cfg, f, done, id, e);
        OfferOrDrop(p, id, e);
        return false;
      }
      if |queues[id]| < cfg.Buffer() {
        RoomMeansSent(cfg, f, done, id, e);
      }
      var r := OfferOrSkip(p, id, e, false);
      return r.Blocked?;
    }

    /** The compare-and-swap of Close; only one caller wins it. */
    method CloseMark() returns (won: bool)
      requires Valid()
      modifies this`closed, this`b
      ensures Valid() && won == !old(closed) && closed
      ensures b == if won then Step(cfg, old(b), Event<E>.CloseMark) else old(b)
    {
      won := !closed;
      if won {
        closed := true;
        b := Step(cfg, b, Event<E>.CloseMark);
      }
    }

    /** The locked section of Close, subscriber by subscriber. */
    method CloseStop()
      requires Valid() && b.closing.Marked?
      modifies this`subs, this`stopped, this`b
      ensures subs == {} && stopped == old(stopped) + old(subs)
      ensures Valid() && View() == old(View()).AfterClose()
      ensures b == Step(cfg, old(b), Event<E>.CloseStop)
    {
      CloseIsMirrored(cfg, View(), b);
      StopAll();
      b := Step(cfg, b, Event<E>.CloseStop);
    }

    /** The loop of Close. */
    method StopAll()
      modifies this`subs, this`stopped
      ensures subs == {} && stopped == old(stopped) + old(subs)
    {
      while subs != {}
        invariant stopped + subs == old(stopped) + old(subs)
        decreases subs
      {
        var id :| id in subs;
        stopped := stopped + {id};
        subs := subs - {id};
      }
    }
  }
}
