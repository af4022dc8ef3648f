// internal/circuitbreaker: the three-state breaker under concurrent calls.
//
// Do takes the mutex twice or more: allow, then (after the operation)
// recordResult, or the short-circuit count. Each section is one step, and the
// steps of any number of calls interleave with each other and with Reset.

module CircuitBreaker {
  import opened Common

  datatype State = Closed | Open | HalfOpen

  /** The fields of Breaker; openedAt is None for the zero time. */
  datatype Fields = Fields(
    state: State,
    failures: nat,
    openedAt: Option<int>,
    totalCalls: nat,
    totalFailures: nat,
    totalShortCirc: nat,
    transitions: nat)

  datatype Config = Config(thresholdField: int, cooldownField: int) {
    function Threshold(): (t: nat) ensures t >= 1 { if thresholdField <= 0 then 5 else thresholdField }

    function Cooldown(): (d: int) ensures d >= 1 { if cooldownField <= 0 then 30_000_000_000 else cooldownField }
  }

  const NEW_BREAKER := Fields(Closed, 0, None, 0, 0, 0, 0)

  function Transition(b: Fields, to: State): Fields {
    if b.state == to then b else b.(state := to, transitions := b.transitions + 1)
  }

  /** Cooldown has elapsed since an instant; the zero time is long ago. */
  predicate CooledDown(cfg: Config, openedAt: Option<int>, now: int) {
    openedAt.Some? ==> now - openedAt.value >= cfg.Cooldown()
  }

  function AllowStep(cfg: Config, b: Fields, now: int): (Fields, bool) {
    var counted := b.(totalCalls := b.totalCalls + 1);
    match b.state
    case Closed => (counted, true)
    case Open => if CooledDown(cfg, b.openedAt, now) then (Transition(counted, HalfOpen), true) else (counted, false)
    case HalfOpen => (counted, false)
  }

  function RecordStep(cfg: Config, b: Fields, failed: bool, now: int): Fields {
    var counted := b.(totalFailures := b.totalFailures + (if failed then 1 else 0));
    match b.state
    case Closed =>
      if !failed then counted.(failures := 0)
      else if b.failures + 1 >= cfg.Threshold() then
        Transition(counted.(failures := b.failures + 1, openedAt := Some(now)), Open)
      else counted.(failures := b.failures + 1)
    case HalfOpen =>
      if failed then Transition(counted.(openedAt := Some(now)), Open).(failures := cfg.Threshold())
      else Transition(counted.(failures := 0), Closed)
    case Open => counted
  }

  function ResetStep(b: Fields): Fields {
    Transition(b.(failures := 0, openedAt := None), Closed)
  }

  // ---------- Calls around the breaker ----------

  type Call = nat

  datatype Progress =
    | Running(admittedIn: State, admittedAt: int)  // the operation is under way
    | Refused                                      // allow said no, not counted yet

  datatype System = System(
    b: Fields,
    calls: map<Call, Progress>,
    probe: Option<Call>,      // history: the call that entered HalfOpen last
    lastTrip: Option<int>,    // history: when the breaker last opened
    sinceClosing: seq<bool>,  // history: results recorded since the breaker last closed (true: failed)
    admitted: nat)            // history: calls let through

  datatype Event =
    | CallAllow(c: Call, now: int)
    | CallRecord(c: Call, failed: bool, now: int)
    | CountShort(c: Call)
    | DoReset

  ghost predicate Enabled(s: System, e: Event) {
    match e
    case CallAllow(c, _) => c !in s.calls
    case CallRecord(c, _, _) => c in s.calls && s.calls[c].Running?
    case CountShort(c) => c in s.calls && s.calls[c].Refused?
    case DoReset => true
  }

  ghost function Step(cfg: Config, s: System, e: Event): System {
    match e
    case CallAllow(c, now) =>
      var (b, ok) := AllowStep(cfg, s.b, now);
      s.(b := b,
         calls := s.calls[c := if ok then Running(s.b.state, now) else Refused],
         probe := if ok && s.b.state == Open then Some(c) else s.probe,
         admitted := s.admitted + (if ok then 1 else 0))
    case CallRecord(c, failed, now) =>
      var b := RecordStep(cfg, s.b, failed, now);
      s.(b := b,
         calls := s.calls - {c},
         lastTrip := if b.state == Open && s.b.state != Open then Some(now) else s.lastTrip,
         sinceClosing := if b.state == Closed && s.b.state != Closed then []
                         else if s.b.state == Closed then s.sinceClosing + [failed]
                         else s.sinceClosing)
    case CountShort(c) =>
      s.(b := s.b.(totalShortCirc := s.b.totalShortCirc + 1), calls := s.calls - {c})
    case DoReset =>
      s.(b := ResetStep(s.b), sinceClosing := [])
  }

  ghost predicate Init(s: System) {
    s == System(NEW_BREAKER, map[], None, None, [], 0)
  }

  ghost predicate Next(cfg: Config, s: System, s': System) {
    exists e :: Enabled(s, e) && s' == Step(cfg, s, e)
  }

  // ---------- What every run keeps ----------

  /** The number of failing results at the end of a record. */
  function TrailingFailures(results: seq<bool>): (n: nat)
    ensures n <= |results| && (n < |results| ==> !results[|results| - n - 1])
    ensures forall k | |results| - n <= k < |results| :: results[k]
  {
    if results == [] || !results[|results| - 1] then 0
    else 1 + TrailingFailures(results[..|results| - 1])
  }

  /** Open or probing means that exactly the threshold of failures led there;
      closed means fewer, and the count is the trailing run of failures. */
  ghost predicate FailuresMeasureState(cfg: Config, s: System) {
    && (s.b.state == Closed <==> s.b.failures < cfg.Threshold())
    && (s.b.state != Closed ==> s.b.failures == cfg.Threshold())
    && (s.b.state == Closed ==> s.b.failures == TrailingFailures(s.sinceClosing))
  }

  /** While half-open, the probe that opened the door is still under way. */
  ghost predicate ProbeInFlight(s: System) {
    s.b.state == HalfOpen ==>
      && s.probe.Some?
      && s.probe.value in s.calls
      && s.calls[s.probe.value].Running?
      && s.calls[s.probe.value].admittedIn == Open
  }

  ghost predicate OpenSinceLastTrip(s: System) {
    s.b.state != Closed ==> s.lastTrip.Some? && s.b.openedAt == s.lastTrip
  }

  ghost function IsRefused(p: Progress): int { if p.Refused? then 1 else 0 }

  /** Every call is let through, counted as short-circuited, or about to be. */
  ghost predicate CallsAccountedFor(s: System) {
    s.b.totalCalls == s.admitted + s.b.totalShortCirc + Sum(s.calls, IsRefused)
  }

  ghost predicate Inv(cfg: Config, s: System) {
    && FailuresMeasureState(cfg, s)
    && ProbeInFlight(s)
    && OpenSinceLastTrip(s)
    && CallsAccountedFor(s)
  }

  lemma StepKeepsInv(cfg: Config, s: System, e: Event)
    requires Inv(cfg, s) && Enabled(s, e)
    ensures Inv(cfg, Step(cfg, s, e))
  {
    var s' := Step(cfg, s, e);
    match e
    case CallAllow(c, now) =>
      SumUpdate(s.calls, c, s'.calls[c], IsRefused);
    case CallRecord(c, failed, now) =>
      SumRemove(s.calls, c, IsRefused);
      assert (s.sinceClosing + [failed])[..|s.sinceClosing|] == s.sinceClosing;
    case CountShort(c) =>
      SumRemove(s.calls, c, IsRefused);
    case DoReset =>
  }

  lemma RunsKeepInv(cfg: Config, run: seq<System>)
    requires Behavior(Init, (s, s') => Next(cfg, s, s'), run)
    ensures forall i | 0 <= i < |run| :: Inv(cfg, run[i])
  {
    var next, inv := (s, s') => Next(cfg, s, s'), s => Inv(cfg, s);
    forall s, s' | inv(s) && next(s, s')
      ensures inv(s')
    {
      var e :| Enabled(s, e) && s' == Step(cfg, s, e);
      StepKeepsInv(cfg, s, e);
    }
    Invariance(Init, next, inv, run);
    forall i | 0 <= i < |run|
      ensures Inv(cfg, run[i])
    {
      assert inv(run[i]);
    }
  }

  /** The state theorem: what the state, the failure count, the probe and the
      counters say about each other in every state of every run. */
  lemma StateIsSound(cfg: Config, run: seq<System>)
    requires Behavior(Init, (s, s') => Next(cfg, s, s'), run)
    ensures forall i | 0 <= i < |run| :: FailuresMeasureState(cfg, run[i])
    ensures forall i | 0 <= i < |run| :: ProbeInFlight(run[i])
    ensures forall i | 0 <= i < |run| :: CallsAccountedFor(run[i])
  {
    RunsKeepInv(cfg, run);
  }

  /** The admission theorem: a call gets through while closed, or as the one
      probe of a breaker that tripped at least Cooldown ago; never half-open. */
  lemma AdmissionIsSound(cfg: Config, run: seq<System>, i: nat, c: Call, now: int)
    requires Behavior(Init, (s, s') => Next(cfg, s, s'), run) && i < |run|
    requires Enabled(run[i], CallAllow(c, now))
    ensures var s, s' := run[i], Step(cfg, run[i], CallAllow(c, now));
            && (s.b.state == Open ==> s.lastTrip.Some?)
            && var cooldown := if cfg.cooldownField <= 0 then 30_000_000_000 else cfg.cooldownField;
            && (s'.calls[c].Running? <==>
                  (s.b.state == Closed || (s.b.state == Open && now - s.lastTrip.value >= cooldown)))
            && (s'.calls[c].Running? && s.b.state == Open ==> s'.b.state == HalfOpen && s'.probe == Some(c))
  {
    RunsKeepInv(cfg, run);
    assert Inv(cfg, run[i]);
  }

  /** The trip theorem: a result opens a closed breaker exactly when it makes the
      failing results at the end of the record reach the threshold; it ends a
      half-open period either way; and while open it changes nothing. The new
      period is counted from that instant. */
  lemma TripsIffThresholdReached(cfg: Config, run: seq<System>, i: nat, c: Call, failed: bool, now: int)
    requires Behavior(Init, (s, s') => Next(cfg, s, s'), run) && i < |run|
    requires Enabled(run[i], CallRecord(c, failed, now))
    ensures var b, b' := run[i].b, Step(cfg, run[i], CallRecord(c, failed, now)).b;
            var threshold := if cfg.thresholdField <= 0 then 5 else cfg.thresholdField;
            var trailing := TrailingFailures(run[i].sinceClosing + [failed]);
            && (b.state == Closed ==>
                  && b'.state == (if failed && trailing >= threshold then Open else Closed)
                  && b'.failures == trailing)
            && (b.state == HalfOpen ==>
                  && b'.state == (if failed then Open else Closed)
                  && b'.failures == (if failed then threshold else 0))
            && (b.state == Open ==> b'.state == Open && b'.failures == b.failures)
            && b'.openedAt == (if b'.state == Open && b.state != Open then Some(now) else b.openedAt)
  {
    RunsKeepInv(cfg, run);
    assert Inv(cfg, run[i]);
    assert (run[i].sinceClosing + [failed])[..|run[i].sinceClosing|] == run[i].sinceClosing;
  }

  /** A reset closes the breaker from any state, so that the next call is let
      through; the calls under way stay. A refused call is counted once. */
  lemma ResetLetsCallsThrough(cfg: Config, s: System, c: Call, now: int)
    ensures var s' := Step(cfg, s, DoReset);
            && s'.b.state == Closed && s'.b.failures == 0 && s'.b.openedAt.None? && s'.calls == s.calls
            && (c !in s.calls ==> IsRunning(Step(cfg, s', CallAllow(c, now)), c))
    ensures Enabled(s, CountShort(c)) ==>
      var s' := Step(cfg, s, CountShort(c));
      && c !in s'.calls && s'.b == s.b.(totalShortCirc := s'.b.totalShortCirc)
      && s'.b.totalShortCirc == s.b.totalShortCirc + 1
  {
  }

  // ---------- Who ends a half-open period ----------

  ghost predicate IsRunning(s: System, c: Call) { c in s.calls && s.calls[c].Running? }

  /** What can follow a state as long as nobody resets the breaker by hand and
      the operation of call c has not ended. */
  ghost predicate DuringProbe(cfg: Config, s: System, c: Call, path: seq<System>) {
    && path != [] && path[0] == s
    && (forall i | 0 <= i < |path| :: IsRunning(path[i], c))
    && forall i | 0 <= i < |path| - 1 :: NextWithoutReset(cfg, path[i], path[i + 1])
  }

  ghost predicate NextWithoutReset(cfg: Config, s: System, s': System) {
    exists e: Event :: !e.DoReset? && Enabled(s, e) && s' == Step(cfg, s, e)
  }

  /** The documented promise: other callers are refused until the probe has
      finished. */
  ghost predicate RefusesUntilProbeEnds(cfg: Config, s: System, probe: Call) {
    forall path: seq<System> | DuringProbe(cfg, s, probe, path) :: path[|path| - 1].b.state == HalfOpen
  }

  /** The probe is the only call whose operation is under way. */
  ghost predicate OnlyProbeRuns(s: System, probe: Call) {
    s.b.state == HalfOpen && forall c | IsRunning(s, c) :: c == probe
  }

  /** Nothing joins a half-open period in which only the probe runs. */
  lemma {:induction false} ProbeStaysAlone(cfg: Config, s: System, c: Call, path: seq<System>, i: nat)
    requires DuringProbe(cfg, s, c, path) && i < |path| && OnlyProbeRuns(s, c)
    ensures OnlyProbeRuns(path[i], c)
  {
    if i > 0 {
      ProbeStaysAlone(cfg, s, c, path, i - 1);
      assert NextWithoutReset(cfg, path[i - 1], path[i - 1 + 1]);
      var e: Event :| !e.DoReset? && Enabled(path[i - 1], e) && path[i] == Step(cfg, path[i - 1], e);
      assert e.CallRecord? ==> IsRunning(path[i - 1], e.c);
      assert IsRunning(path[i], c);
      forall d | IsRunning(path[i], d)
        ensures d == c
      {
        assert IsRunning(path[i - 1], d);
      }
    }
  }

  /** A call still running from before the trip can end the period: recording
      its success closes the breaker under the probe. */
  lemma StaleSuccessCloses(cfg: Config, s: System, probe: Call, stale: Call)
    requires s.b.state == HalfOpen && IsRunning(s, probe) && IsRunning(s, stale) && stale != probe
    ensures !RefusesUntilProbeEnds(cfg, s, probe)
  {
    var e := CallRecord(stale, false, 0);
    var path := [s, Step(cfg, s, e)];
    assert Enabled(s, e) && path[1] == Step(cfg, s, e);
    assert NextWithoutReset(cfg, path[0], path[0 + 1]);
    assert DuringProbe(cfg, s, probe, path);
    assert path[|path| - 1].b.state == Closed;
  }

  /** The promise is kept for exactly the probes that are admitted while no
      other operation is under way. */
  lemma ProbeIsAloneIffIdleBefore(cfg: Config, run: seq<System>, i: nat, c: Call, now: int)
    requires Behavior(Init, (s, s') => Next(cfg, s, s'), run) && i < |run|
    requires run[i].b.state == Open && c !in run[i].calls
    requires run[i].lastTrip.Some? && now - run[i].lastTrip.value >= cfg.Cooldown()
    ensures RefusesUntilProbeEnds(cfg, Step(cfg, run[i], CallAllow(c, now)), c)
       <==> forall d :: !IsRunning(run[i], d)
  {
    AdmissionIsSound(cfg, run, i, c, now);
    var s, s' := run[i], Step(cfg, run[i], CallAllow(c, now));
    if d :| IsRunning(s, d) {
      StaleSuccessCloses(cfg, s', c, d);
    } else {
      forall d | IsRunning(s', d)
        ensures d == c
      {
        assert d != c ==> IsRunning(s, d);
      }
      forall path: seq<System> | DuringProbe(cfg, s', c, path)
        ensures path[|path| - 1].b.state == HalfOpen
      {
        ProbeStaysAlone(cfg, s', c, path, |path| - 1);
      }
    }
  }

  /** Calls 0 and 1 start, call 1 fails and trips a breaker of threshold one,
      and call 2 is let in as the probe. */
  lemma ProbeBesideOldCall(cfg: Config) returns (run: seq<System>)
    requires cfg.Threshold() == 1
    ensures Behavior(Init, (s, s') => Next(cfg, s, s'), run)
    ensures run[|run| - 1] ==
      System(Fields(HalfOpen, 1, Some(0), 3, 1, 0, 2), map[0 := Running(Closed, 0), 2 := Running(Open, cfg.Cooldown())],
             Some(2), Some(0), [true], 3)
  {
    var d := cfg.Cooldown();
    var s0 := System(NEW_BREAKER, map[], None, None, [], 0);
    var s1 := Step(cfg, s0, CallAllow(0, 0));
    var s2 := Step(cfg, s1, CallAllow(1, 0));
    var s3 := Step(cfg, s2, CallRecord(1, true, 0));
    var s4 := Step(cfg, s3, CallAllow(2, d));
    assert Enabled(s0, CallAllow(0, 0)) && Enabled(s1, CallAllow(1, 0));
    assert Enabled(s2, CallRecord(1, true, 0)) && Enabled(s3, CallAllow(2, d));
    run := [s0, s1, s2, s3, s4];
  }

  /** Then call 0 succeeds and closes the breaker, and call 3 is admitted while
      the probe is still running. */
  lemma StaleSuccessClosesDuringProbe(cfg: Config) returns (run: seq<System>)
    requires cfg.Threshold() == 1
    ensures Behavior(Init, (s, s') => Next(cfg, s, s'), run)
    ensures var s := run[|run| - 1];
            s.b.state == Closed && s.probe == Some(2) && IsRunning(s, 2) && IsRunning(s, 3)
  {
    run := ProbeBesideOldCall(cfg);
    var n, s4, d := |run| - 1, run[|run| - 1], cfg.Cooldown();
    var s5 := Step(cfg, s4, CallRecord(0, false, d));
    var s6 := Step(cfg, s5, CallAllow(3, d));
    assert Enabled(s4, CallRecord(0, false, d)) && Enabled(s5, CallAllow(3, d));
    run := run + [s5, s6];
    assert Next(cfg, run[n], run[n + 1]) && Next(cfg, run[n + 1], run[n + 2]);
  }

  // ---------- The breaker object ----------

  ghost function Changed(from: State, to: State): nat { if from == to then 0 else 1 }

  class Breaker {
    const cfg: Config
    var state: State
    var failures: nat
    var openedAt: Option<int>
    var totalCalls: nat
    var totalFailures: nat
    var totalShortCirc: nat
    var transitions: nat

    ghost function View(): Fields reads this {
      Fields(state, failures, openedAt, totalCalls, totalFailures, totalShortCirc, transitions)
    }

    constructor (cfg: Config)
      ensures View() == NEW_BREAKER && this.cfg == cfg
      ensures state == Closed && failures == 0 && openedAt == None
      ensures totalCalls == 0 && totalFailures == 0 && totalShortCirc == 0 && transitions == 0
    {
      this.cfg := cfg;
      state, failures, openedAt := Closed, 0, None;
      totalCalls, totalFailures, totalShortCirc, transitions := 0, 0, 0, 0;
    }

    method TransitionTo(to: State)
      modifies this
      ensures View() == Transition(old(View()), to)
      ensures state == to && transitions == old(transitions) + (if old(state) == to then 0 else 1)
      ensures failures == old(failures) && openedAt == old(openedAt) && totalCalls == old(totalCalls)
      ensures totalFailures == old(totalFailures) && totalShortCirc == old(totalShortCirc)
    {
      if state == to {
        return;
      }
      state := to;
      transitions := transitions + 1;
    }

    /** Closed lets everyone through, open lets one through once it has cooled
        down, and half-open nobody. */
    method Allow(now: int) returns (ok: bool)
      modifies this
      ensures (View(), ok) == AllowStep(cfg, old(View()), now)
      ensures var cooldown := if cfg.cooldownField <= 0 then 30_000_000_000 else cfg.cooldownField;
              ok <==> || old(state) == Closed
                      || (old(state) == Open && (old(openedAt).None? || now - old(openedAt).value >= cooldown))
      ensures state == if ok && old(state) == Open then HalfOpen else old(state)
      ensures totalCalls == old(totalCalls) + 1 && transitions == old(transitions) + Changed(old(state), state)
      ensures failures == old(failures) && openedAt == old(openedAt)
      ensures totalFailures == old(totalFailures) && totalShortCirc == old(totalShortCirc)
    {
      totalCalls := totalCalls + 1;
      match state
      case Closed =>
        return true;
      case Open =>
        if openedAt.Some? && now - openedAt.value < cfg.Cooldown() {
          return false;
        }
        TransitionTo(HalfOpen);
        return true;
      case HalfOpen =>
        return false;
    }

    /** A failure opens the breaker when it is the threshold-th in a row, or the
        probe's; a success closes it or starts the count anew. */
    method RecordResult(failed: bool, now: int)
      modifies this
      ensures View() == RecordStep(cfg, old(View()), failed, now)
      ensures var threshold := if cfg.thresholdField <= 0 then 5 else cfg.thresholdField;
              && (old(state) == Closed ==>
                    && state == (if failed && old(failures) + 1 >= threshold then Open else Closed)
                    && failures == (if failed then old(failures) + 1 else 0))
              && (old(state) == HalfOpen ==>
                    && state == (if failed then Open else Closed)
                    && failures == (if failed then threshold else 0))
              && (old(state) == Open ==> state == Open && failures == old(failures))
      ensures openedAt == if state == Open && old(state) != Open then Some(now) else old(openedAt)
      ensures totalFailures == old(totalFailures) + (if failed then 1 else 0)
      ensures transitions == old(transitions) + Changed(old(state), state)
      ensures totalCalls == old(totalCalls) && totalShortCirc == old(totalShortCirc)
    {
      if failed {
        totalFailures := totalFailures + 1;
      }
      match state
      case Closed =>
        if !failed {
          failures := 0;
          return;
        }
        failures := failures + 1;
        if failures >= cfg.Threshold() {
          openedAt := Some(now);
          TransitionTo(Open);
        }
      case HalfOpen =>
        if failed {
          openedAt := Some(now);
          TransitionTo(Open);
          failures := cfg.Threshold();
          return;
        }
        failures := 0;
        TransitionTo(Closed);
      case Open =>
    }

    method Reset()
      modifies this
      ensures View() == ResetStep(old(View()))
      ensures state == Closed && failures == 0 && openedAt == None
      ensures transitions == old(transitions) + Changed(old(state), Closed) && totalCalls == old(totalCalls)
      ensures totalFailures == old(totalFailures) && totalShortCirc == old(totalShortCirc)
    {
      failures := 0;
      openedAt := None;
      TransitionTo(Closed);
    }
  }
}
