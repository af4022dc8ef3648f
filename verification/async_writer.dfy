// internal/cacheutil/async_writer.go: a bounded queue of write jobs.
//
// Steps are the sections under the mutex, the channel operations, and the
// wait-group operations. Submit holds the mutex across two of them: it counts
// the job as outstanding, then offers it to the channel.

module AsyncWriter {
  import opened Common

  type Job = nat  // one accepted or rejected Submit call
  type Id = nat

  datatype Worker =
    | Waiting
    | Running(j: Job)   // received, about to execute
    | Ran(j: Job)       // executed, the error (if any) not recorded yet
    | Settled(j: Job)   // the error is recorded, Done is still to come
    | Exited
  {
    predicate Holds() { Running? || Ran? || Settled? }
  }

  /** A Flush, or the Flush inside a Close, and what it has seen. */
  datatype Caller =
    | Flushing(closing: bool, owed: set<Job>)  // owed: accepted when it was called
    | Passed(closing: bool, owed: set<Job>)    // jobsWG.Wait has returned
    | Read(closing: bool, owed: set<Job>, errs: seq<Job>)
    | Returned(closing: bool, owed: set<Job>, errs: seq<Job>)

  /** firstErr is the joined error: the failed jobs in the order they were recorded. */
  datatype Writer = Writer(
    queue: seq<Job>,
    closed: bool,
    firstErr: seq<Job>,
    outstanding: int,         // jobsWG
    liveWorkers: int,         // workersWG
    submitting: Option<Job>,  // holds the mutex, has counted its job
    workers: map<Id, Worker>,
    callers: map<Id, Caller>,
    accepted: set<Job>,
    rejected: set<Job>,
    finished: set<Job>,
    takenBy: map<Job, Id>,    // history: the worker that received a job
    runs: map<Job, nat>)      // history: how often a job has been executed

  datatype Config = Config(queueSize: int, fails: Job -> bool) {
    function Capacity(): nat { if queueSize < 1 then 1 else queueSize }
  }

  datatype Event =
    | Reserve(j: Job)             // Submit: lock, check closed, jobsWG.Add
    | Offer                       // Submit: the select, unlock
    | Receive(w: Id)
    | Execute(w: Id)
    | RecordErr(w: Id)
    | Finish(w: Id)               // jobsWG.Done
    | Exit(w: Id)                 // the channel is closed and drained
    | Call(c: Id, closing: bool)  // Flush, or Close up to its Flush
    | Pass(c: Id)
    | ReadErr(c: Id)
    | Return(c: Id)

  ghost predicate Enabled(cfg: Config, s: Writer, e: Event) {
    match e
    case Reserve(j) => s.submitting.None? && j !in s.accepted && j !in s.rejected
    case Offer => s.submitting.Some?
    case Receive(w) => w in s.workers && s.workers[w].Waiting? && s.queue != []
    case Execute(w) => w in s.workers && s.workers[w].Running?
    case RecordErr(w) => w in s.workers && s.workers[w].Ran? && s.submitting.None?
    case Finish(w) => w in s.workers && s.workers[w].Settled?
    case Exit(w) => w in s.workers && s.workers[w].Waiting? && s.closed && s.queue == []
    case Call(c, closing) => c !in s.callers && (closing ==> s.submitting.None?)
    case Pass(c) => c in s.callers && s.callers[c].Flushing? && s.outstanding == 0
    case ReadErr(c) => c in s.callers && s.callers[c].Passed? && s.submitting.None?
    case Return(c) => c in s.callers && s.callers[c].Read? && (s.callers[c].closing ==> s.liveWorkers == 0)
  }

  /** How often a job has been executed so far. */
  ghost function Runs(s: Writer, j: Job): nat { if j in s.runs then s.runs[j] else 0 }

  ghost function Step(cfg: Config, s: Writer, e: Event): Writer
    requires Enabled(cfg, s, e)
  {
    match e
    case Reserve(j) =>
      if s.closed then s.(rejected := s.rejected + {j})
      else s.(outstanding := s.outstanding + 1, submitting := Some(j))
    case Offer =>
      var j := s.submitting.value;
      if |s.queue| < cfg.Capacity() then
        s.(queue := s.queue + [j], submitting := None, accepted := s.accepted + {j})
      else
        s.(outstanding := s.outstanding - 1, submitting := None, rejected := s.rejected + {j})
    case Receive(w) =>
      s.(queue := s.queue[1..],
         workers := s.workers[w := Running(s.queue[0])],
         takenBy := s.takenBy[s.queue[0] := w])
    case Execute(w) =>
      var j := s.workers[w].j;
      s.(workers := s.workers[w := if cfg.fails(j) then Ran(j) else Settled(j)], runs := s.runs[j := Runs(s, j) + 1])
    case RecordErr(w) =>
      var j := s.workers[w].j;
      s.(workers := s.workers[w := Settled(j)], firstErr := s.firstErr + [j])
    case Finish(w) =>
      s.(workers := s.workers[w := Waiting],
         outstanding := s.outstanding - 1,
         finished := s.finished + {s.workers[w].j})
    case Exit(w) => s.(workers := s.workers[w := Exited], liveWorkers := s.liveWorkers - 1)
    case Call(c, closing) =>
      s.(closed := s.closed || closing, callers := s.callers[c := Flushing(closing, s.accepted)])
    case Pass(c) => s.(callers := s.callers[c := Passed(s.callers[c].closing, s.callers[c].owed)])
    case ReadErr(c) => s.(callers := s.callers[c := Read(s.callers[c].closing, s.callers[c].owed, s.firstErr)])
    case Return(c) =>
      s.(callers := s.callers[c := Returned(s.callers[c].closing, s.callers[c].owed, s.callers[c].errs)])
  }

  ghost predicate Init(s: Writer) {
    && s == Writer([], false, [], 0, |s.workers|, None, s.workers, map[], {}, {}, {}, map[], map[])
    && s.workers != map[]
    && forall w | w in s.workers :: s.workers[w].Waiting?
  }

  ghost predicate Next(cfg: Config, s: Writer, s': Writer) {
    exists e :: Enabled(cfg, s, e) && s' == Step(cfg, s, e)
  }

  // ---------- What every run keeps ----------

  ghost function Busy(w: Worker): int { if w.Holds() then 1 else 0 }

  ghost function Live(w: Worker): int { if w.Exited? then 0 else 1 }

  ghost function Pending(s: Writer): int { if s.submitting.Some? then 1 else 0 }

  /** Outstanding jobs are the queued ones, the ones in a worker's hands, and
      the one being submitted. */
  ghost predicate Counted(s: Writer) {
    && s.outstanding == |s.queue| + Sum(s.workers, Busy) + Pending(s)
    && s.outstanding >= 0
    && s.liveWorkers == Sum(s.workers, Live)
  }

  /** A channel send happens only while the channel is open. */
  ghost predicate SendsOnlyWhenOpen(s: Writer) { s.submitting.Some? ==> !s.closed }

  /** Every accepted job is queued, in its worker's hands, or finished, and in
      only one of these places. */
  ghost predicate Placed(s: Writer) {
    && Unrepeated(s.queue)
    && (forall j | j in s.queue :: j in s.accepted && j !in s.finished)
    && (forall w | w in s.workers && s.workers[w].Holds() ::
          var j := s.workers[w].j;
          j in s.accepted && j !in s.finished && j !in s.queue && j in s.takenBy && s.takenBy[j] == w)
    && (forall j | j in s.accepted && j !in s.finished && j !in s.queue :: InHand(s, j))
    && s.finished <= s.accepted && (forall j | j in s.rejected :: j !in s.accepted)
    && (s.submitting.Some? ==> s.submitting.value !in s.accepted && s.submitting.value !in s.rejected)
  }

  ghost predicate Unrepeated(q: seq<Job>) {
    forall a, b | 0 <= a < b < |q| :: q[a] != q[b]
  }

  ghost predicate InHand(s: Writer, j: Job) {
    && j in s.takenBy
    && s.takenBy[j] in s.workers
    && s.workers[s.takenBy[j]].Holds()
    && s.workers[s.takenBy[j]].j == j
  }

  /** A job has been executed once if it is finished or past its execution,
      and not at all otherwise. */
  ghost predicate RunCounts(s: Writer) {
    && (forall j | j in s.finished :: Runs(s, j) == 1)
    && (forall j | j !in s.accepted || j in s.queue :: Runs(s, j) == 0)
    && (forall w | w in s.workers && s.workers[w].Holds() ::
          Runs(s, s.workers[w].j) == if s.workers[w].Running? then 0 else 1)
  }

  /** Exactly the failed jobs that are finished or settled have been recorded,
      each once. */
  ghost predicate ErrorsRecorded(cfg: Config, s: Writer) {
    && Unrepeated(s.firstErr)
    && (forall j | j in s.firstErr :: j in s.accepted && j !in s.queue && cfg.fails(j))
    && (forall j | j in s.finished && cfg.fails(j) :: j in s.firstErr)
    && (forall w | w in s.workers && s.workers[w].Holds() ::
          (s.workers[w].j in s.firstErr <==> s.workers[w].Settled? && cfg.fails(s.workers[w].j)))
    && (forall w | w in s.workers && s.workers[w].Ran? :: cfg.fails(s.workers[w].j))
  }

  /** What a Flush or Close may rely on at each stage. */
  ghost predicate CallersOk(cfg: Config, s: Writer) {
    forall c | c in s.callers ::
      var p := s.callers[c];
      && p.owed <= s.accepted
      && (p.closing ==> s.closed)
      && (!p.Flushing? ==> p.owed <= s.finished)
      && (!p.Flushing? && p.closing ==> s.outstanding == 0)
      && (p.Read? || p.Returned? ==> forall j | j in p.owed && cfg.fails(j) :: j in p.errs)
      && ((p.Read? || p.Returned?) && p.closing ==> p.errs == s.firstErr)
      && (p.Returned? && p.closing ==> s.liveWorkers == 0)
  }

  ghost predicate Inv(cfg: Config, s: Writer) {
    && Counted(s)
    && SendsOnlyWhenOpen(s)
    && Placed(s)
    && RunCounts(s)
    && ErrorsRecorded(cfg, s)
    && CallersOk(cfg, s)
    && WorkersOk(cfg, s)
    && ReadErrsStay(s)
  }

  /** Whatever a Flush or Close has read is still part of the joined error. */
  ghost predicate ReadErrsStay(s: Writer) {
    forall c, j | c in s.callers && (s.callers[c].Read? || s.callers[c].Returned?) && j in s.callers[c].errs ::
      j in s.firstErr
  }

  lemma StepKeepsReadErrs(cfg: Config, s: Writer, e: Event)
    requires ReadErrsStay(s) && Enabled(cfg, s, e)
    ensures ReadErrsStay(Step(cfg, s, e))
  {
  }

  /** There is a worker, and it leaves only a closed and drained channel. */
  ghost predicate WorkersOk(cfg: Config, s: Writer) {
    && |s.queue| <= cfg.Capacity()
    && s.workers != map[]
    && forall w | w in s.workers && s.workers[w].Exited? :: s.closed && s.queue == []
  }

  lemma StepKeepsWorkers(cfg: Config, s: Writer, e: Event)
    requires WorkersOk(cfg, s) && SendsOnlyWhenOpen(s) && Enabled(cfg, s, e)
    ensures WorkersOk(cfg, Step(cfg, s, e)) && SendsOnlyWhenOpen(Step(cfg, s, e))
  {
  }

  lemma NothingOutstandingMeansAllFinished(s: Writer)
    requires Counted(s) && Placed(s) && s.outstanding == 0
    ensures s.queue == [] && s.submitting.None? && s.accepted == s.finished
    ensures forall w | w in s.workers :: !s.workers[w].Holds()
  {
    SumBounds(s.workers, Busy);
    forall w | w in s.workers
      ensures !s.workers[w].Holds()
    {
      assert Busy(s.workers[w]) <= 0;
    }
  }

  lemma StepKeepsCounts(cfg: Config, s: Writer, e: Event)
    requires Counted(s) && Enabled(cfg, s, e)
    ensures Counted(Step(cfg, s, e))
  {
    SumBounds(Step(cfg, s, e).workers, Busy);
    if e.Receive? || e.Execute? || e.RecordErr? || e.Finish? || e.Exit? {
      WorkerStepKeepsCounts(cfg, s, e);
    }
  }

  lemma WorkerStepKeepsCounts(cfg: Config, s: Writer, e: Event)
    requires Counted(s) && Enabled(cfg, s, e)
    requires e.Receive? || e.Execute? || e.RecordErr? || e.Finish? || e.Exit?
    requires Sum(Step(cfg, s, e).workers, Busy) >= 0
    ensures Counted(Step(cfg, s, e))
  {
    WorkersCounted(s.workers, e.w, Step(cfg, s, e).workers[e.w]);
  }

  lemma WorkersCounted(workers: map<Id, Worker>, w: Id, p: Worker)
    requires w in workers
    ensures Sum(workers[w := p], Busy) == Sum(workers, Busy) + Busy(p) - Busy(workers[w])
    ensures Sum(workers[w := p], Live) == Sum(workers, Live) + Live(p) - Live(workers[w])
  {
    SumUpdate(workers, w, p, Busy);
    SumUpdate(workers, w, p, Live);
  }

  lemma HeadAndTail(q: seq<Job>)
    requires q != [] && Unrepeated(q)
    ensures Unrepeated(q[1..]) && q[0] !in q[1..]
    ensures forall j :: j in q <==> j == q[0] || j in q[1..]
  {
    assert q == [q[0]] + q[1..];
  }

  lemma AppendNew(q: seq<Job>, j: Job)
    requires Unrepeated(q) && j !in q
    ensures Unrepeated(q + [j])
    ensures forall i :: i in q + [j] <==> i in q || i == j
  {
  }

  ghost predicate JobsOk(cfg: Config, s: Writer) { Placed(s) && RunCounts(s) && ErrorsRecorded(cfg, s) }

  lemma ReceiveKeepsJobs(cfg: Config, s: Writer, w: Id)
    requires JobsOk(cfg, s) && Enabled(cfg, s, Receive(w))
    ensures JobsOk(cfg, Step(cfg, s, Receive(w)))
  {
    HeadAndTail(s.queue);
    var s' := Step(cfg, s, Receive(w));
    forall j | j in s'.accepted && j !in s'.finished && j !in s'.queue
      ensures InHand(s', j)
    {
      assert j != s.queue[0] ==> InHand(s, j);
    }
  }

  lemma WorkKeepsJobs(cfg: Config, s: Writer, e: Event)
    requires JobsOk(cfg, s) && Enabled(cfg, s, e) && (e.Execute? || e.RecordErr? || e.Finish?)
    ensures JobsOk(cfg, Step(cfg, s, e))
  {
    WorkKeepsPlaces(cfg, s, e);
    if e.RecordErr? {
      AppendNew(s.firstErr, s.workers[e.w].j);
    }
  }

  lemma WorkKeepsPlaces(cfg: Config, s: Writer, e: Event)
    requires Placed(s) && Enabled(cfg, s, e) && (e.Execute? || e.RecordErr? || e.Finish?)
    ensures Placed(Step(cfg, s, e))
  {
    var s' := Step(cfg, s, e);
    forall j | j in s'.accepted && j !in s'.finished && j !in s'.queue
      ensures InHand(s', j)
    {
      assert InHand(s, j);
    }
  }

  lemma AcceptKeepsJobs(cfg: Config, s: Writer, s': Writer, j: Job)
    requires JobsOk(cfg, s) && s.submitting == Some(j)
    requires s' == s.(queue := s.queue + [j], submitting := None, accepted := s.accepted + {j})
    ensures JobsOk(cfg, s')
  {
    assert j !in s.queue && Runs(s, j) == 0;
    AppendNew(s.queue, j);
    AcceptKeepsPlaces(s, s', j);
  }

  lemma AcceptKeepsPlaces(s: Writer, s': Writer, j: Job)
    requires Placed(s) && s.submitting == Some(j) && Unrepeated(s.queue + [j])
    requires s' == s.(queue := s.queue + [j], submitting := None, accepted := s.accepted + {j})
    ensures Placed(s')
  {
    assert forall i :: i in s'.queue <==> i in s.queue || i == j;
    assert forall i | InHand(s, i) :: InHand(s', i);
  }

  /** Steps that neither move nor execute a job. */
  lemma BookkeepingKeepsJobs(cfg: Config, s: Writer, s': Writer)
    requires JobsOk(cfg, s)
    requires s'.queue == s.queue && s'.accepted == s.accepted && s'.finished == s.finished
    requires s'.takenBy == s.takenBy && s'.runs == s.runs && s'.firstErr == s.firstErr && s'.workers == s.workers
    requires forall j | j in s'.rejected :: j !in s.accepted
    requires s'.submitting.Some? ==> s'.submitting.value !in s.accepted && s'.submitting.value !in s'.rejected
    ensures JobsOk(cfg, s')
  {
    assert forall j | InHand(s, j) :: InHand(s', j);
  }

  lemma StepKeepsJobs(cfg: Config, s: Writer, e: Event)
    requires JobsOk(cfg, s) && Enabled(cfg, s, e)
    ensures JobsOk(cfg, Step(cfg, s, e))
  {
    var s' := Step(cfg, s, e);
    match e
    case Receive(w) => ReceiveKeepsJobs(cfg, s, w);
    case Offer =>
      if |s.queue| < cfg.Capacity() {
        AcceptKeepsJobs(cfg, s, s', s.submitting.value);
      } else {
        BookkeepingKeepsJobs(cfg, s, s');
      }
    case Execute(_) => WorkKeepsJobs(cfg, s, e);
    case RecordErr(_) => WorkKeepsJobs(cfg, s, e);
    case Finish(_) => WorkKeepsJobs(cfg, s, e);
    case Exit(w) => ExitKeepsJobs(cfg, s, w);
    case Reserve(_) => BookkeepingKeepsJobs(cfg, s, s');
    case Call(_, _) => BookkeepingKeepsJobs(cfg, s, s');
    case Pass(_) => BookkeepingKeepsJobs(cfg, s, s');
    case ReadErr(_) => BookkeepingKeepsJobs(cfg, s, s');
    case Return(_) => BookkeepingKeepsJobs(cfg, s, s');
  }

  lemma ExitKeepsJobs(cfg: Config, s: Writer, w: Id)
    requires JobsOk(cfg, s) && Enabled(cfg, s, Exit(w))
    ensures JobsOk(cfg, Step(cfg, s, Exit(w)))
  {
    assert forall j | InHand(s, j) :: InHand(Step(cfg, s, Exit(w)), j);
  }

  lemma CallerStepKeepsCallers(cfg: Config, s: Writer, e: Event)
    requires Counted(s) && Placed(s) && ErrorsRecorded(cfg, s) && CallersOk(cfg, s)
    requires Enabled(cfg, s, e) && (e.Call? || e.Pass? || e.ReadErr? || e.Return?)
    ensures CallersOk(cfg, Step(cfg, s, e))
  {
    if e.Pass? {
      NothingOutstandingMeansAllFinished(s);
    }
  }

  /** Once a Close has passed jobsWG.Wait, nothing that it will read changes. */
  lemma WorkerStepKeepsCallers(cfg: Config, s: Writer, e: Event)
    requires Counted(s) && Placed(s) && SendsOnlyWhenOpen(s) && CallersOk(cfg, s)
    requires Enabled(cfg, s, e) && !(e.Call? || e.Pass? || e.ReadErr? || e.Return?)
    ensures CallersOk(cfg, Step(cfg, s, e))
  {
    if e.Exit? {
      SumBounds(s.workers, Live);
      assert Live(s.workers[e.w]) <= s.liveWorkers;
    } else if e.Finish? || e.RecordErr? {
      SumBounds(s.workers, Busy);
      assert Busy(s.workers[e.w]) <= s.outstanding;
    }
  }

  lemma StepKeepsInv(cfg: Config, s: Writer, e: Event)
    requires Inv(cfg, s) && Enabled(cfg, s, e)
    ensures Inv(cfg, Step(cfg, s, e))
  {
    StepKeepsCounts(cfg, s, e);
    StepKeepsJobs(cfg, s, e);
    StepKeepsWorkers(cfg, s, e);
    StepKeepsReadErrs(cfg, s, e);
    if e.Call? || e.Pass? || e.ReadErr? || e.Return? {
      CallerStepKeepsCallers(cfg, s, e);
    } else {
      WorkerStepKeepsCallers(cfg, s, e);
    }
  }

  lemma InitHasInv(cfg: Config, s: Writer)
    requires Init(s)
    ensures Inv(cfg, s)
  {
    SumZero(s.workers, Busy);
    AllLive(s.workers);
  }

  lemma {:induction false} AllLive(workers: map<Id, Worker>)
    requires forall w | w in workers :: workers[w].Waiting?
    ensures Sum(workers, Live) == |workers|
    decreases |workers|
  {
    if workers != map[] {
      var w :| w in workers;
      SumPick(workers, w, Live);
      assert (workers - {w}).Keys == workers.Keys - {w};
      assert |workers.Keys| == |workers| && |(workers - {w}).Keys| == |workers - {w}|;
      AllLive(workers - {w});
    }
  }

  lemma RunsKeepInv(cfg: Config, run: seq<Writer>)
    requires Behavior(Init, (s, s') => Next(cfg, s, s'), run)
    ensures forall i | 0 <= i < |run| :: Inv(cfg, run[i])
  {
    var next, inv := (s, s') => Next(cfg, s, s'), s => Inv(cfg, s);
    forall s | Init(s)
      ensures inv(s)
    {
      InitHasInv(cfg, s);
    }
    forall s, s' | inv(s) && next(s, s')
      ensures inv(s')
    {
      var e :| Enabled(cfg, s, e) && s' == Step(cfg, s, e);
      StepKeepsInv(cfg, s, e);
    }
    Invariance(Init, next, inv, run);
    forall i | 0 <= i < |run|
      ensures Inv(cfg, run[i])
    {
      assert inv(run[i]);
    }
  }

  /** In every interleaving: no send hits a closed channel, the wait group
      counts exactly the jobs under way, and nothing runs twice or unaccepted. */
  lemma WriterIsSound(cfg: Config, run: seq<Writer>, i: nat)
    requires Behavior(Init, (s, s') => Next(cfg, s, s'), run) && i < |run|
    ensures var s := run[i]; SendsOnlyWhenOpen(s) && Counted(s)
    ensures forall j :: Runs(run[i], j) <= if j in run[i].accepted then 1 else 0
  {
    RunsKeepInv(cfg, run);
    var s := run[i];
    forall j
      ensures Runs(s, j) <= if j in s.accepted then 1 else 0
    {
      assert Inv(cfg, s);
      if j in s.accepted && j !in s.finished && j !in s.queue {
        assert InHand(s, j);
      }
    }
  }

  /** When Close returns, every accepted job has run exactly once, no rejected
      one has, and the error it returns joins the errors of exactly the failed
      jobs: it is nil precisely when none failed. */
  lemma CloseIsExactlyOnce(cfg: Config, run: seq<Writer>, i: nat, c: Id)
    requires Behavior(Init, (s, s') => Next(cfg, s, s'), run) && i < |run|
    requires c in run[i].callers && run[i].callers[c].Returned? && run[i].callers[c].closing
    ensures forall j | j in run[i].accepted :: Runs(run[i], j) == 1
    ensures forall j | j in run[i].rejected :: Runs(run[i], j) == 0
    ensures var errs := run[i].callers[c].errs;
            && Unrepeated(errs)
            && (forall j :: j in errs <==> j in run[i].accepted && cfg.fails(j))
            && (errs == [] <==> forall j | j in run[i].accepted :: !cfg.fails(j))
    ensures forall w | w in run[i].workers :: run[i].workers[w].Exited?
  {
    RunsKeepInv(cfg, run);
    var s := run[i];
    assert Inv(cfg, s);
    NothingOutstandingMeansAllFinished(s);
    SumBounds(s.workers, Live);
    forall w | w in s.workers
      ensures s.workers[w].Exited?
    {
      assert Live(s.workers[w]) <= 0;
    }
    assert forall j | j in s.firstErr :: j in s.accepted && cfg.fails(j);
    if s.firstErr != [] {
      assert s.firstErr[0] in s.firstErr;
    }
  }

  /** When Flush has returned, every job accepted before it was called is done,
      and the error it returns includes those jobs' errors, and none but the
      errors of accepted jobs that failed. */
  lemma FlushWaitsForEarlierJobs(cfg: Config, run: seq<Writer>, i: nat, c: Id)
    requires Behavior(Init, (s, s') => Next(cfg, s, s'), run) && i < |run|
    requires c in run[i].callers && run[i].callers[c].Returned?
    ensures var p := run[i].callers[c];
            && (forall j | j in p.owed :: Runs(run[i], j) == 1 && (cfg.fails(j) ==> j in p.errs))
            && forall j | j in p.errs :: j in run[i].accepted && cfg.fails(j) && Runs(run[i], j) == 1
  {
    RunsKeepInv(cfg, run);
    assert Inv(cfg, run[i]);
  }

  /** What a call waits for is what had been accepted when it came, and so
      everything that had been accepted before that. */
  lemma EarlierJobsAreOwed(cfg: Config, run: seq<Writer>, h: nat, i: nat, c: Id)
    requires Behavior(Init, (s, s') => Next(cfg, s, s'), run) && h <= i < |run|
    requires c !in run[h].callers
    ensures c in run[i].callers ==> run[h].accepted <= run[i].callers[c].owed
  {
    var s0, tail := run[h], run[h..i + 1];
    var init, next, inv := s => s == s0, (s, s') => Next(cfg, s, s'), s => Owes(s, s0.accepted, c);
    forall s, s' | inv(s) && next(s, s')
      ensures inv(s')
    {
      var e :| Enabled(cfg, s, e) && s' == Step(cfg, s, e);
      StepKeepsOwed(cfg, s, e, s0.accepted, c);
    }
    forall k | 0 <= k < |tail| - 1
      ensures next(tail[k], tail[k + 1])
    {
      assert next(run[h + k], run[h + k + 1]);
    }
    Invariance(init, next, inv, tail);
    assert inv(tail[i - h]);
  }

  ghost predicate Owes(s: Writer, earlier: set<Job>, c: Id) {
    earlier <= s.accepted && (c in s.callers ==> earlier <= s.callers[c].owed)
  }

  lemma StepKeepsOwed(cfg: Config, s: Writer, e: Event, earlier: set<Job>, c: Id)
    requires Enabled(cfg, s, e) && Owes(s, earlier, c)
    ensures Owes(Step(cfg, s, e), earlier, c)
  {
  }

  /** Seen from the call: when a Flush or Close that had not been called in state
      h has returned in state i, every job accepted by state h has run exactly
      once, and its error is returned if it failed. */
  lemma FlushFinishesEarlierJobs(cfg: Config, run: seq<Writer>, h: nat, i: nat, c: Id, j: Job)
    requires Behavior(Init, (s, s') => Next(cfg, s, s'), run) && h <= i < |run|
    requires c !in run[h].callers && j in run[h].accepted
    requires c in run[i].callers && run[i].callers[c].Returned?
    ensures Runs(run[i], j) == 1 && (cfg.fails(j) ==> j in run[i].callers[c].errs)
  {
    EarlierJobsAreOwed(cfg, run, h, i, c);
    FlushWaitsForEarlierJobs(cfg, run, i, c);
  }

  // ---------- Close returns ----------

  ghost function WorkLeft(w: Worker): int {
    match w
    case Waiting => 1
    case Running(_) => 4
    case Ran(_) => 3
    case Settled(_) => 2
    case Exited => 0
  }

  ghost function CallLeft(c: Caller): int {
    match c
    case Flushing(_, _) => 3
    case Passed(_, _) => 2
    case Read(_, _, _) => 1
    case Returned(_, _, _) => 0
  }

  /** A bound on the steps that a closed writer has left. */
  ghost function Left(s: Writer): int { 4 * |s.queue| + Sum(s.workers, WorkLeft) + Sum(s.callers, CallLeft) }

  lemma LeftIsNatural(s: Writer)
    ensures Left(s) >= 0
  {
    SumBounds(s.workers, WorkLeft);
    SumBounds(s.callers, CallLeft);
  }

  /** Each step of a closed writer, other than a new call, leaves fewer of them. */
  lemma ClosedWriterWindsDown(cfg: Config, s: Writer, e: Event)
    requires Inv(cfg, s) && s.closed && Enabled(cfg, s, e) && !e.Reserve? && !e.Call?
    ensures Step(cfg, s, e).closed && Left(Step(cfg, s, e)) < Left(s)
  {
    var s' := Step(cfg, s, e);
    if e.Pass? || e.ReadErr? || e.Return? {
      SumUpdate(s.callers, e.c, s'.callers[e.c], CallLeft);
    } else {
      SumUpdate(s.workers, e.w, s'.workers[e.w], WorkLeft);
    }
  }

  ghost predicate AllDone(s: Writer) {
    && s.queue == []
    && (forall w | w in s.workers :: s.workers[w].Exited?)
    && forall c | c in s.callers :: s.callers[c].Returned?
  }

  /** The step that a worker can take; None when all have gone. */
  lemma WorkerCanMove(cfg: Config, s: Writer) returns (e: Option<Event>)
    requires Inv(cfg, s) && s.closed
    ensures e.Some? ==> Enabled(cfg, s, e.value) && !e.value.Reserve? && !e.value.Call?
    ensures e.None? ==> s.queue == [] && forall w | w in s.workers :: s.workers[w].Exited?
  {
    var some :| some in s.workers;
    if w :| w in s.workers && s.workers[w].Running? {
      e := Some(Execute(w));
    } else if w :| w in s.workers && s.workers[w].Ran? {
      e := Some(Event.RecordErr(w));
    } else if w :| w in s.workers && s.workers[w].Settled? {
      e := Some(Finish(w));
    } else if s.queue != [] {
      e := Some(Receive(some));
    } else if w :| w in s.workers && s.workers[w].Waiting? {
      e := Some(Exit(w));
    } else {
      e := None;
    }
  }

  /** A closed writer is never stuck: until everything is done, someone can move. */
  lemma ClosedWriterCanMove(cfg: Config, s: Writer) returns (e: Event)
    requires Inv(cfg, s) && s.closed && !AllDone(s)
    ensures Enabled(cfg, s, e) && !e.Reserve? && !e.Call?
  {
    var work := WorkerCanMove(cfg, s);
    if work.Some? {
      e := work.value;
      return;
    }
    SumZero(s.workers, Busy);
    SumZero(s.workers, Live);
    var c :| c in s.callers && !s.callers[c].Returned?;
    e := match s.callers[c] case Flushing(_, _) => Pass(c) case Passed(_, _) => ReadErr(c) case _ => Return(c);
  }

  ghost predicate NextWithoutCall(cfg: Config, s: Writer, s': Writer) {
    exists e: Event :: Enabled(cfg, s, e) && s' == Step(cfg, s, e) && !e.Reserve? && !e.Call?
  }

  ghost predicate Stuck(cfg: Config, s: Writer) {
    forall e | Enabled(cfg, s, e) :: e.Reserve? || e.Call?
  }

  lemma NextWindsDown(cfg: Config, s: Writer, s': Writer)
    requires Inv(cfg, s) && s.closed && NextWithoutCall(cfg, s, s')
    ensures Inv(cfg, s') && s'.closed && Left(s') < Left(s)
  {
    var e: Event :| Enabled(cfg, s, e) && s' == Step(cfg, s, e) && !e.Reserve? && !e.Call?;
    StepKeepsInv(cfg, s, e);
    ClosedWriterWindsDown(cfg, s, e);
  }

  lemma {:induction false} PathWindsDown(cfg: Config, path: seq<Writer>, k: nat)
    requires k < |path| && Inv(cfg, path[0]) && path[0].closed
    requires forall i | 0 <= i < |path| - 1 :: NextWithoutCall(cfg, path[i], path[i + 1])
    ensures Inv(cfg, path[k]) && path[k].closed && Left(path[k]) <= Left(path[0]) - k
  {
    if k > 0 {
      PathWindsDown(cfg, path, k - 1);
      assert NextWithoutCall(cfg, path[k - 1], path[k - 1 + 1]);
      NextWindsDown(cfg, path[k - 1], path[k]);
    }
  }

  /** Close and Flush terminate: from any state after a Close, in whatever order
      workers and callers move, only so many steps remain, and none is possible
      exactly when the queue is empty, all workers have gone and every call has
      returned. */
  lemma CloseReturns(cfg: Config, run: seq<Writer>, i: nat, path: seq<Writer>)
    requires Behavior(Init, (s, s') => Next(cfg, s, s'), run) && i < |run| && run[i].closed
    requires path != [] && path[0] == run[i]
    requires forall k | 0 <= k < |path| - 1 :: NextWithoutCall(cfg, path[k], path[k + 1])
    ensures |path| - 1 <= Left(run[i])
    ensures Stuck(cfg, path[|path| - 1]) <==> AllDone(path[|path| - 1])
  {
    RunsKeepInv(cfg, run);
    assert Inv(cfg, run[i]);
    var last := path[|path| - 1];
    PathWindsDown(cfg, path, |path| - 1);
    LeftIsNatural(last);
    if !AllDone(last) {
      var e := ClosedWriterCanMove(cfg, last);
    }
  }

  // ---------- The writer object ----------

  /** The fields of AsyncWriter that decide what happens; s is the same state
      with the goroutines and the history around it. */
  class AsyncWriter {
    const cfg: Config
    var jobs: seq<Job>
    var closed: bool
    var firstErr: seq<Job>
    var jobsWG: int
    ghost var s: Writer

    ghost predicate Valid() reads this {
      s.queue == jobs && s.closed == closed && s.firstErr == firstErr && s.outstanding == jobsWG
    }

    constructor (cfg: Config, workers: int)
      ensures Valid() && Init(s) && this.cfg == cfg
      ensures s.liveWorkers == Max(workers, 1)
    {
      this.cfg := cfg;
      jobs, closed, firstErr, jobsWG := [], false, [], 0;
      ghost var started: map<Id, Worker> := map[];
      for i := 0 to Max(workers, 1)
        invariant |started| == i
        invariant forall w | w in started :: w < i && started[w].Waiting?
      {
        started := started[i := Waiting];
      }
      s := Writer([], false, [], 0, |started|, None, started, map[], {}, {}, {}, map[], map[]);
    }

    /** Submit up to its select: counted as outstanding unless closed. */
    method Reserve(j: Job) returns (open: bool)
      requires Valid() && Enabled(cfg, s, Event.Reserve(j))
      modifies this
      ensures Valid() && s == Step(cfg, old(s), Event.Reserve(j))
      ensures open == s.submitting.Some? == !old(closed)
      ensures jobs == old(jobs) && jobsWG == old(jobsWG) + (if open then 1 else 0)
      ensures closed == old(closed) && firstErr == old(firstErr)
    {
      if closed {
        s := Step(cfg, s, Event.Reserve(j));
        return false;
      }
      s := Step(cfg, s, Event.Reserve(j));
      jobsWG := jobsWG + 1;
      return true;
    }

    /** The select of Submit, which never blocks. */
    method Offer(j: Job) returns (ok: bool)
      requires Valid() && s.submitting == Some(j)
      modifies this
      ensures Valid() && s == Step(cfg, old(s), Event.Offer)
      ensures ok <==> |old(jobs)| < if cfg.queueSize < 1 then 1 else cfg.queueSize
      ensures jobs == old(jobs) + (if ok then [j] else [])
      ensures jobsWG == old(jobsWG) - (if ok then 0 else 1)
      ensures closed == old(closed) && firstErr == old(firstErr)
    {
      s := Step(cfg, s, Event.Offer);
      if |jobs| < cfg.Capacity() {
        jobs := jobs + [j];
        return true;
      }
      jobsWG := jobsWG - 1;
      return false;
    }

    /** Submit accepts a job exactly when the writer is open and has room. */
    method Submit(j: Job) returns (ok: bool)
      requires Valid() && Enabled(cfg, s, Event.Reserve(j))
      modifies this
      ensures Valid() && s.submitting.None?
      ensures ok <==> !old(closed) && |old(jobs)| < if cfg.queueSize < 1 then 1 else cfg.queueSize
      ensures jobs == old(jobs) + (if ok then [j] else [])
      ensures jobsWG == old(jobsWG) + (if ok then 1 else 0)
      ensures s.accepted == old(s.accepted) + (if ok then {j} else {})
      ensures s.rejected == old(s.rejected) + (if ok then {} else {j})
    {
      var open := Reserve(j);
      if !open {
        return false;
      }
      ok := Offer(j);
    }

    /** The locked part of Close. */
    method MarkClosed(c: Id)
      requires Valid() && Enabled(cfg, s, Call(c, true))
      modifies this
      ensures Valid() && s == Step(cfg, old(s), Call(c, true))
      ensures closed && jobs == old(jobs) && jobsWG == old(jobsWG) && firstErr == old(firstErr)
    {
      if !closed {
        closed := true;
      }
      s := Step(cfg, s, Call(c, true));
    }

    method RecordErr(w: Id, j: Job)
      requires Valid() && Enabled(cfg, s, Event.RecordErr(w)) && s.workers[w].j == j
      modifies this
      ensures Valid() && s == Step(cfg, old(s), Event.RecordErr(w))
      ensures firstErr == old(firstErr) + [j]
      ensures jobs == old(jobs) && jobsWG == old(jobsWG) && closed == old(closed)
    {
      firstErr := firstErr + [j];
      s := Step(cfg, s, Event.RecordErr(w));
    }

    /** A worker runs its job, and records the error if there is one. */
    method ExecuteJob(w: Id, j: Job)
      requires Valid() && w in s.workers && s.workers[w] == Running(j) && s.submitting.None?
      modifies this
      ensures Valid() && jobs == old(jobs) && jobsWG == old(jobsWG) && closed == old(closed)
      ensures firstErr == old(firstErr) + (if cfg.fails(j) then [j] else [])
      ensures Runs(s, j) == Runs(old(s), j) + 1 && s.finished == old(s.finished)
      ensures s.workers == old(s.workers)[w := Settled(j)]
    {
      s := Step(cfg, s, Execute(w));
      if cfg.fails(j) {
        RecordErr(w, j);
      }
    }

    /** One turn of a worker's loop, when nobody comes between: the oldest job
        is taken, executed once, its error recorded, and counted as done. */
    method RunOne(w: Id) returns (j: Job)
      requires Valid() && Enabled(cfg, s, Receive(w)) && s.submitting.None?
      modifies this
      ensures Valid() && old(jobs) == [j] + jobs && jobsWG == old(jobsWG) - 1
      ensures closed == old(closed) && firstErr == old(firstErr) + (if cfg.fails(j) then [j] else [])
      ensures Runs(s, j) == Runs(old(s), j) + 1 && s.finished == old(s.finished) + {j}
      ensures w in s.workers && s.workers == old(s.workers)[w := Waiting]
    {
      j := jobs[0];
      jobs := jobs[1..];
      s := Step(cfg, s, Receive(w));
      ExecuteJob(w, j);
      jobsWG := jobsWG - 1;
      s := Step(cfg, s, Finish(w));
    }
  }
}
