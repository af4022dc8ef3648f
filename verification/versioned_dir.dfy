// internal/cacheutil/versioned_dir.go on top of internal/fsutil/atomic.go.
//
// Every system call of Open and of the atomic sidecar write is one step; the
// process may fail at a call, or crash between any two. Removing a directory
// removes its files one by one. One process uses the directory at a time, the
// token names are fixed, and token names, the entries directory and the
// extras are different paths. Who clears the directory opens it again before
// storing.

module VersionedDir {
  import opened Common

  type Name = string
  type Tokens = map<Name, string>

  datatype Config = Config(names: seq<Name>, extraDirs: seq<string>, extraFiles: seq<string>) {
    function NameSet(): set<Name> { set n | n in names }

    /** The places that a nuke empties, in its order. */
    function Areas(): seq<Area> {
      [Entries]
      + seq(|extraDirs|, i requires 0 <= i < |extraDirs| => ExtraDir(extraDirs[i]))
      + seq(|extraFiles|, i requires 0 <= i < |extraFiles| => ExtraFile(extraFiles[i]))
    }
  }

  datatype Area = Entries | ExtraDir(dir: string) | ExtraFile(file: string) {
    /** Extras with an empty name are skipped. */
    predicate Skipped() { (ExtraDir? && dir == "") || (ExtraFile? && file == "") }
  }

  datatype Path = Sidecar(name: Name) | Temp(of: Name, serial: nat) | Cached(area: Area, id: nat)

  /** Text is a (possibly partial) sidecar; Blob is cached data together with
      the token values it was produced under, which the code does not store. */
  datatype File = Text(text: string) | Blob(under: Tokens)

  type Disk = map<Path, File>

  /** What the process is about to do. */
  datatype Pc =
    | Idle
    | Checking(t: Tokens, i: nat)   // tokensMismatched has passed i tokens
    | Nuking(t: Tokens, area: nat)  // nukeEntries has emptied that many areas
    | Writing(t: Tokens, i: nat)    // that many sidecars are written
    | Staging(t: Tokens, i: nat, serial: nat, complete: bool)  // a tempfile exists
    | Ready(t: Tokens)              // Open has returned successfully

  datatype State = State(disk: Disk, pc: Pc)

  datatype Event =
    | Start(t: Tokens)
    | ReadSidecar
    | RemoveFile(p: Path)
    | NextArea
    | CreateTemp(serial: nat)
    | WriteTemp(length: nat)
    | Rename
    | Finish
    | Fail(cleanedUp: bool)
    | Store(area: Area, id: nat)
    | Evict(p: Path)
    | Crash
    | Clear

  predicate InArea(p: Path, a: Area) { p.Cached? && p.area == a }

  ghost predicate Emptied(d: Disk, a: Area) { forall p | p in d :: !InArea(p, a) }

  predicate Matches(d: Disk, name: Name, value: string) { Sidecar(name) in d ==> d[Sidecar(name)] == Text(value) }

  ghost predicate Enabled(cfg: Config, s: State, e: Event) {
    match e
    case Start(t) => s.pc.Idle? && t.Keys == cfg.NameSet()
    case ReadSidecar => s.pc.Checking?
    case RemoveFile(p) => s.pc.Nuking? && s.pc.area < |cfg.Areas()| && p in s.disk && InArea(p, cfg.Areas()[s.pc.area])
    case NextArea =>
      && s.pc.Nuking?
      && (s.pc.area < |cfg.Areas()| ==> cfg.Areas()[s.pc.area].Skipped() || Emptied(s.disk, cfg.Areas()[s.pc.area]))
    case CreateTemp(serial) =>
      s.pc.Writing? && s.pc.i < |cfg.names| && Temp(cfg.names[s.pc.i], serial) !in s.disk
    case WriteTemp(length) =>
      && s.pc.Staging? && s.pc.i < |cfg.names| && cfg.names[s.pc.i] in s.pc.t
      && length <= |s.pc.t[cfg.names[s.pc.i]]|
    case Rename =>
      s.pc.Staging? && s.pc.complete && s.pc.i < |cfg.names| && Temp(cfg.names[s.pc.i], s.pc.serial) in s.disk
    case Finish => s.pc.Writing? && s.pc.i >= |cfg.names|
    case Fail(_) => !s.pc.Idle? && !s.pc.Ready? && (s.pc.Staging? ==> s.pc.i < |cfg.names|)
    case Store(a, _) => s.pc.Ready? && a in cfg.Areas() && !a.Skipped()
    case Evict(p) => s.pc.Ready? && p.Cached?
    case Crash => true
    case Clear => s.pc.Idle? || s.pc.Ready?
  }

  ghost function Step(cfg: Config, s: State, e: Event): State
    requires Enabled(cfg, s, e)
  {
    match e
    case Start(t) => s.(pc := Checking(t, 0))
    case ReadSidecar =>
      if s.pc.i >= |cfg.names| || cfg.names[s.pc.i] !in s.pc.t then s.(pc := Writing(s.pc.t, 0))
      else if Matches(s.disk, cfg.names[s.pc.i], s.pc.t[cfg.names[s.pc.i]]) then s.(pc := Checking(s.pc.t, s.pc.i + 1))
      else s.(pc := Nuking(s.pc.t, 0))
    case RemoveFile(p) => s.(disk := s.disk - {p})
    case NextArea =>
      if s.pc.area >= |cfg.Areas()| then s.(pc := Writing(s.pc.t, 0)) else s.(pc := Nuking(s.pc.t, s.pc.area + 1))
    case CreateTemp(serial) =>
      State(s.disk[Temp(cfg.names[s.pc.i], serial) := Text("")], Staging(s.pc.t, s.pc.i, serial, false))
    case WriteTemp(length) =>
      var name := cfg.names[s.pc.i];
      State(s.disk[Temp(name, s.pc.serial) := Text(s.pc.t[name][..length])],
            s.pc.(complete := length == |s.pc.t[name]|))
    case Rename =>
      var name := cfg.names[s.pc.i];
      var temp := Temp(name, s.pc.serial);
      State(s.disk[Sidecar(name) := s.disk[temp]] - {temp}, Writing(s.pc.t, s.pc.i + 1))
    case Finish => s.(pc := Ready(s.pc.t))
    case Fail(cleanedUp) =>
      State(if s.pc.Staging? && cleanedUp then s.disk - {Temp(cfg.names[s.pc.i], s.pc.serial)} else s.disk, Idle)
    case Store(a, id) => s.(disk := s.disk[Cached(a, id) := Blob(s.pc.t)])
    case Evict(p) => s.(disk := s.disk - {p})
    case Crash => s.(pc := Idle)
    case Clear => State(map[], Idle)
  }

  ghost predicate Init(s: State) { s == State(map[], Idle) }

  ghost predicate Next(cfg: Config, s: State, s': State) {
    exists e :: Enabled(cfg, s, e) && s' == Step(cfg, s, e)
  }

  // ---------- What every crash point keeps ----------

  /** The sidecars hold exactly these values. */
  ghost predicate SidecarsAre(cfg: Config, d: Disk, t: Tokens) {
    forall n | n in cfg.names :: n in t && Sidecar(n) in d && d[Sidecar(n)] == Text(t[n])
  }

  /** Every cached file was produced under exactly the token values that the
      sidecars hold. */
  ghost predicate Consistent(cfg: Config, d: Disk) {
    forall p | p in d && p.Cached? :: d[p].Blob? && SidecarsAre(cfg, d, d[p].under)
  }

  ghost predicate AllUnder(d: Disk, t: Tokens) {
    forall p | p in d && p.Cached? :: d[p] == Blob(t)
  }

  ghost predicate Listed(cfg: Config, d: Disk) {
    forall p | p in d && p.Cached? :: p.area in cfg.Areas() && !p.area.Skipped()
  }

  ghost predicate WrittenSoFar(cfg: Config, d: Disk, t: Tokens, i: nat) {
    && i <= |cfg.names|
    && forall j | 0 <= j < i ::
         cfg.names[j] in t && Sidecar(cfg.names[j]) in d && d[Sidecar(cfg.names[j])] == Text(t[cfg.names[j]])
  }

  ghost predicate PcInv(cfg: Config, d: Disk, pc: Pc) {
    match pc
    case Idle => true
    case Checking(t, i) =>
      && t.Keys == cfg.NameSet()
      && i <= |cfg.names|
      && forall j | 0 <= j < i :: Matches(d, cfg.names[j], t[cfg.names[j]])
    case Nuking(t, area) =>
      && t.Keys == cfg.NameSet()
      && area <= |cfg.Areas()|
      && forall b | 0 <= b < area :: Emptied(d, cfg.Areas()[b])
    case Writing(t, i) =>
      t.Keys == cfg.NameSet() && AllUnder(d, t) && WrittenSoFar(cfg, d, t, i)
    case Staging(t, i, serial, complete) =>
      && t.Keys == cfg.NameSet() && AllUnder(d, t) && WrittenSoFar(cfg, d, t, i)
      && i < |cfg.names| && Temp(cfg.names[i], serial) in d
      && (complete ==> d[Temp(cfg.names[i], serial)] == Text(t[cfg.names[i]]))
    case Ready(t) =>
      t.Keys == cfg.NameSet() && AllUnder(d, t) && SidecarsAre(cfg, d, t)
  }

  ghost predicate UnderNames(cfg: Config, d: Disk) {
    forall p | p in d && p.Cached? :: d[p].Blob? && d[p].under.Keys == cfg.NameSet()
  }

  ghost predicate Inv(cfg: Config, s: State) {
    && Consistent(cfg, s.disk)
    && UnderNames(cfg, s.disk)
    && Listed(cfg, s.disk)
    && PcInv(cfg, s.disk, s.pc)
  }

  /** When no token mismatches, the cached files were produced under the very
      token values that Open was called with. */
  lemma MatchingTokensMeanSameTokens(cfg: Config, d: Disk, t: Tokens)
    requires Consistent(cfg, d) && UnderNames(cfg, d) && t.Keys == cfg.NameSet()
    requires forall j | 0 <= j < |cfg.names| :: Matches(d, cfg.names[j], t[cfg.names[j]])
    ensures AllUnder(d, t)
  {
    forall p | p in d && p.Cached?
      ensures d[p].under == t
    {
      forall n | n in cfg.names
        ensures d[p].under[n] == t[n]
      {
        var j :| 0 <= j < |cfg.names| && cfg.names[j] == n;
        assert Matches(d, cfg.names[j], t[cfg.names[j]]);
      }
    }
  }

  lemma CheckKeepsInv(cfg: Config, s: State)
    requires Inv(cfg, s) && s.pc.Checking?
    ensures Inv(cfg, Step(cfg, s, ReadSidecar))
  {
    if s.pc.i == |cfg.names| {
      MatchingTokensMeanSameTokens(cfg, s.disk, s.pc.t);
    } else {
      assert cfg.names[s.pc.i] in cfg.names;
    }
  }

  lemma NextAreaKeepsInv(cfg: Config, s: State)
    requires Inv(cfg, s) && Enabled(cfg, s, NextArea)
    ensures Inv(cfg, Step(cfg, s, NextArea))
  {
    if s.pc.area == |cfg.Areas()| {
      EmptiedAreasHoldNothing(cfg, s.disk);
    }
  }

  lemma RemoveFileKeepsInv(cfg: Config, s: State, p: Path)
    requires Inv(cfg, s) && Enabled(cfg, s, RemoveFile(p))
    ensures Inv(cfg, Step(cfg, s, RemoveFile(p)))
  {
  }

  lemma EmptiedAreasHoldNothing(cfg: Config, d: Disk)
    requires Listed(cfg, d) && forall b | 0 <= b < |cfg.Areas()| :: Emptied(d, cfg.Areas()[b])
    ensures forall p | p in d :: !p.Cached?
  {
    forall p | p in d
      ensures !p.Cached?
    {
      assert forall a | a in cfg.Areas() :: !InArea(p, a);
    }
  }

  lemma StageKeepsInv(cfg: Config, s: State, e: Event)
    requires Inv(cfg, s) && Enabled(cfg, s, e) && (e.CreateTemp? || e.WriteTemp?)
    ensures Inv(cfg, Step(cfg, s, e))
  {
    if e.WriteTemp? {
      var value := s.pc.t[cfg.names[s.pc.i]];
      assert value[..|value|] == value;
    }
  }

  lemma RenameKeepsInv(cfg: Config, s: State)
    requires Inv(cfg, s) && Enabled(cfg, s, Rename)
    ensures Inv(cfg, Step(cfg, s, Rename))
  {
    var name, d' := cfg.names[s.pc.i], Step(cfg, s, Rename).disk;
    assert d'[Sidecar(name)] == Text(s.pc.t[name]);
    forall p | p in d' && p.Cached?
      ensures SidecarsAre(cfg, d', d'[p].under)
    {
      assert p in s.disk && d'[p] == s.disk[p] == Blob(s.pc.t);
    }
  }

  lemma StepKeepsInv(cfg: Config, s: State, e: Event)
    requires Inv(cfg, s) && Enabled(cfg, s, e)
    ensures Inv(cfg, Step(cfg, s, e))
  {
    match e
    case ReadSidecar => CheckKeepsInv(cfg, s);
    case RemoveFile(p) => RemoveFileKeepsInv(cfg, s, p);
    case NextArea => NextAreaKeepsInv(cfg, s);
    case CreateTemp(_) => StageKeepsInv(cfg, s, e);
    case WriteTemp(_) => StageKeepsInv(cfg, s, e);
    case Rename => RenameKeepsInv(cfg, s);
    case Finish =>
    case Start(_) =>
    case Fail(_) =>
    case Store(_, _) =>
    case Evict(_) =>
    case Crash =>
    case Clear =>
  }

  /** A run of the system from an empty directory. */
  ghost predicate IsRun(cfg: Config, run: seq<State>) {
    Behavior(Init, (s, s') => Next(cfg, s, s'), run)
  }

  lemma RunsKeepInv(cfg: Config, run: seq<State>)
    requires IsRun(cfg, run)
    ensures forall i | 0 <= i < |run| :: Inv(cfg, run[i])
  {
    var next, inv := (s, s') => Next(cfg, s, s'), s => Inv(cfg, s);
    forall s, s' | inv(s) && next(s, s')
      ensures inv(s')
    {
      var e :| Enabled(cfg, s, e) && s' == Step(cfg, s, e);
      StepKeepsInv(cfg, s, e);
    }
    Invariance(Init, next, inv, run);
    forall i | 0 <= i < |run|
      ensures Inv(cfg, run[i])
    {
      assert inv(run[i]);
    }
  }

  /** Crash safety: at every point of every run, crashes and failures
      included, each cached file carries the token values now in the sidecars;
      and once Open has succeeded, those are the values it was called with. */
  lemma NoStaleEntrySurvives(cfg: Config, run: seq<State>)
    requires IsRun(cfg, run)
    ensures forall i | 0 <= i < |run| :: Consistent(cfg, run[i].disk)
    ensures forall i | 0 <= i < |run| && run[i].pc.Ready? ::
      AllUnder(run[i].disk, run[i].pc.t) && SidecarsAre(cfg, run[i].disk, run[i].pc.t)
  {
    RunsKeepInv(cfg, run);
  }

  /** A process that has opened the directory stores under the values that the
      sidecars then hold, and evicts single files. */
  lemma StoredUnderSidecars(cfg: Config, run: seq<State>, i: nat, a: Area, id: nat, p: Path)
    requires IsRun(cfg, run) && i < |run| && run[i].pc.Ready?
    ensures Enabled(cfg, run[i], Store(a, id)) ==>
      var d := Step(cfg, run[i], Store(a, id)).disk;
      && d == run[i].disk[Cached(a, id) := Blob(run[i].pc.t)] && SidecarsAre(cfg, d, run[i].pc.t)
    ensures Enabled(cfg, run[i], Evict(p)) ==> Step(cfg, run[i], Evict(p)) == run[i].(disk := run[i].disk - {p})
  {
    RunsKeepInv(cfg, run);
    assert Inv(cfg, run[i]);
  }

  /** A crash leaves the disk as it is at that point, for the next process to open;
      Clear leaves nothing. */
  lemma CrashKeepsDisk(cfg: Config, s: State, t: Tokens)
    requires t.Keys == cfg.NameSet()
    ensures var s' := Step(cfg, s, Crash); s'.disk == s.disk && Enabled(cfg, s', Start(t))
    ensures Enabled(cfg, s, Event.Clear) ==>
      var s' := Step(cfg, s, Event.Clear); s'.disk == map[] && Enabled(cfg, s', Start(t))
  {
  }

  /** The token values that the process is working with, if any. */
  function Current(pc: Pc): Option<Tokens> { if pc.Idle? then None else Some(pc.t) }

  /** A sidecar changes only by appearing whole or by going with everything else. */
  ghost predicate SidecarIntact(n: Name, s: State, s': State) {
    if Sidecar(n) !in s'.disk then
      Sidecar(n) in s.disk ==> s'.disk == map[]
    else
      || (Sidecar(n) in s.disk && s'.disk[Sidecar(n)] == s.disk[Sidecar(n)])
      || (Current(s.pc).Some? && n in s.pc.t && s'.disk[Sidecar(n)] == Text(s.pc.t[n]))
  }

  lemma StepKeepsSidecarsWhole(cfg: Config, s: State, e: Event, n: Name)
    requires Inv(cfg, s) && Enabled(cfg, s, e)
    ensures SidecarIntact(n, s, Step(cfg, s, e))
  {
    assert e.RemoveFile? || e.Evict? ==> e.p.Cached?;
  }

  /** No reader ever sees a torn sidecar, in any run: every step leaves each
      sidecar alone, replaces it by the complete value that the running Open
      was given, or removes it together with the whole directory. */
  lemma SidecarsAreNeverTorn(cfg: Config, run: seq<State>, i: nat, n: Name)
    requires IsRun(cfg, run) && i + 1 < |run|
    ensures SidecarIntact(n, run[i], run[i + 1])
  {
    RunsKeepInv(cfg, run);
    var next := (s, s') => Next(cfg, s, s');
    assert next(run[i], run[i + 1]);
    var e :| Enabled(cfg, run[i], e) && run[i + 1] == Step(cfg, run[i], e);
    StepKeepsSidecarsWhole(cfg, run[i], e, n);
  }

  // ---------- Open itself ----------

  /** One more step makes a longer run. */
  lemma RunGrows(cfg: Config, run: seq<State>, e: Event)
    requires IsRun(cfg, run) && Enabled(cfg, run[|run| - 1], e)
    ensures IsRun(cfg, run + [Step(cfg, run[|run| - 1], e)])
  {
    BehaviorGrows(Init, (s, s') => Next(cfg, s, s'), run, Step(cfg, run[|run| - 1], e));
  }

  ghost predicate SomeMismatch(cfg: Config, d: Disk, t: Tokens) {
    exists n | n in cfg.names && n in t :: !Matches(d, n, t[n])
  }

  ghost function CachedFiles(d: Disk): Disk { map p | p in d && p.Cached? :: d[p] }

  predicate CallFails(faults: seq<bool>, k: nat) { k < |faults| && faults[k] }

  /** None of these calls fails. */
  ghost predicate NoneFails(faults: seq<bool>, from: nat, to: nat) {
    forall k | from <= k < to :: !CallFails(faults, k)
  }

  lemma NoneFailsMeans(faults: seq<bool>, from: nat, to: nat)
    ensures NoneFails(faults, from, to) <==> forall k | from <= k < to && k < |faults| :: !faults[k]
  {
    assert forall k | from <= k < to && k < |faults| :: CallFails(faults, k) == faults[k];
  }

  class Directory {
    const cfg: Config
    var disk: Disk
    const faults: seq<bool>       // which of the first system calls fail; later ones do not
    var calls: nat                // system calls made so far
    ghost var trace: seq<State>   // every crash point so far

    ghost function Now(): State
      requires trace != []
      reads this
    {
      trace[|trace| - 1]
    }

    ghost predicate Valid() reads this {
      && trace != []
      && Now().disk == disk
      && IsRun(cfg, trace)
    }

    constructor (cfg: Config, faults: seq<bool>)
      ensures Valid() && Now().pc.Idle? && this.cfg == cfg && disk == map[] && this.faults == faults && calls == 0
    {
      this.cfg := cfg;
      this.faults := faults;
      calls := 0;
      disk := map[];
      trace := [State(map[], Idle)];
    }

    /** A system call has just taken effect on the disk. */
    ghost method Log(e: Event)
      requires trace != [] && IsRun(cfg, trace)
      requires Enabled(cfg, Now(), e) && Step(cfg, Now(), e).disk == disk
      modifies this`trace
      ensures Valid() && trace == old(trace) + [Step(cfg, old(Now()), e)]
    {
      RunGrows(cfg, trace, e);
      trace := trace + [Step(cfg, Now(), e)];
    }

    /** The next system call, which may fail. */
    method Fault() returns (f: bool)
      modifies this`calls
      ensures calls == old(calls) + 1 && f == CallFails(faults, old(calls))
    {
      f := CallFails(faults, calls);
      calls := calls + 1;
    }

    /** A call that may fail and then ends the Open. */
    method Try() returns (ok: bool)
      requires Valid() && !Now().pc.Idle? && !Now().pc.Ready? && !Now().pc.Staging?
      modifies this
      ensures Valid() && old(trace) <= trace && disk == old(disk)
      ensures calls == old(calls) + 1 && ok == !CallFails(faults, old(calls))
      ensures if ok then trace == old(trace) else Now().pc == Idle
    {
      var failed := Fault();
      if failed {
        Log(Fail(false));
      }
      return !failed;
    }

    method SidecarMatches(t: Tokens, i: nat) returns (ok: bool, same: bool)
      requires Valid() && Now().pc == Checking(t, i) && t.Keys == cfg.NameSet() && i < |cfg.names|
      modifies this
      ensures Valid() && old(trace) <= trace && disk == old(disk)
      ensures calls == old(calls) + 1 && ok == !CallFails(faults, old(calls))
      ensures ok ==> same == Matches(disk, cfg.names[i], t[cfg.names[i]])
      ensures Now().pc == if !ok then Idle else if same then Checking(t, i + 1) else Nuking(t, 0)
    {
      same := false;
      ok := Try();
      if ok {
        Log(ReadSidecar);
        same := Matches(disk, cfg.names[i], t[cfg.names[i]]);
      }
    }

    /** Compares the tokens with their sidecars, in order, up to the first
        difference; a missing sidecar is not one. */
    method TokensMismatched(t: Tokens) returns (ok: bool, nuke: bool)
      requires Valid() && Now().pc == Checking(t, 0) && t.Keys == cfg.NameSet()
      modifies this
      ensures Valid() && old(trace) <= trace && disk == old(disk)
      ensures calls >= old(calls) && (ok <==> NoneFails(faults, old(calls), calls))
      ensures !ok ==> Now().pc == Idle
      ensures ok ==> (nuke <==> SomeMismatch(cfg, disk, t))
      ensures ok && !nuke ==> calls == old(calls) + |cfg.names|
      ensures ok ==> Now().pc == if nuke then Nuking(t, 0) else Writing(t, 0)
    {
      var i := 0;
      while i < |cfg.names|
        invariant i <= |cfg.names| && calls == old(calls) + i
        invariant Valid() && old(trace) <= trace && disk == old(disk) && Now().pc == Checking(t, i)
        invariant forall n | n in cfg.names[..i] :: Matches(disk, n, t[n])
        invariant calls >= old(calls) && NoneFails(faults, old(calls), calls)
      {
        var same;
        ok, same := SidecarMatches(t, i);
        if !ok {
          return false, false;
        }
        if !same {
          return true, true;
        }
        i := i + 1;
      }
      assert cfg.names[..i] == cfg.names;
      Log(ReadSidecar);
      return true, false;
    }

    method RemoveFileOf(t: Tokens, ghost index: nat, area: Area, p: Path) returns (ok: bool)
      requires Valid() && Now().pc == Nuking(t, index) && index < |cfg.Areas()| && cfg.Areas()[index] == area
      requires p in disk && InArea(p, area)
      modifies this
      ensures Valid() && old(trace) <= trace
      ensures calls >= old(calls) && (ok <==> NoneFails(faults, old(calls), calls))
      ensures disk == if ok then old(disk) - {p} else old(disk)
      ensures Now().pc == if ok then Nuking(t, index) else Idle
    {
      var failed := Fault();
      if failed {
        Log(Fail(false));
        return false;
      }
      disk := disk - {p};
      Log(RemoveFile(p));
      return true;
    }

    /** os.RemoveAll, one file after the other. */
    method RemoveAll(t: Tokens, ghost index: nat, area: Area) returns (ok: bool)
      requires Valid() && Now().pc == Nuking(t, index) && index < |cfg.Areas()| && cfg.Areas()[index] == area
      modifies this
      ensures Valid() && old(trace) <= trace
      ensures calls >= old(calls) && (ok <==> NoneFails(faults, old(calls), calls))
      ensures if ok then Now().pc == Nuking(t, index + 1) else Now().pc == Idle
    {
      var left := set p | p in disk && InArea(p, area);
      while left != {}
        invariant Valid() && old(trace) <= trace && Now().pc == Nuking(t, index)
        invariant forall p | p in left :: p in disk && InArea(p, area)
        invariant forall p | p in disk && InArea(p, area) :: p in left
        invariant calls >= old(calls) && NoneFails(faults, old(calls), calls)
        decreases left
      {
        var p :| p in left;
        ok := RemoveFileOf(t, index, area, p);
        if !ok {
          return;
        }
        left := left - {p};
      }
      Log(NextArea);
      return true;
    }

    method NukeEntries(t: Tokens) returns (ok: bool)
      requires Valid() && Now().pc == Nuking(t, 0)
      modifies this
      ensures Valid() && old(trace) <= trace
      ensures calls >= old(calls) && (ok <==> NoneFails(faults, old(calls), calls))
      ensures if ok then Now().pc == Writing(t, 0) else Now().pc == Idle
      ensures ok ==> CachedFiles(disk) == map[]
    {
      ok := RemoveAll(t, 0, Entries);
      if !ok {
        return;
      }
      ok := Try();  // recreating the entries directory
      if !ok {
        return;
      }
      ok := NukeExtras(t);
      if !ok {
        return;
      }
      RunsKeepInv(cfg, trace);
      EmptiedAreasHoldNothing(cfg, disk);
      Log(NextArea);
    }

    /** The extra directories and files, without those that have no name. */
    method NukeExtras(t: Tokens) returns (ok: bool)
      requires Valid() && Now().pc == Nuking(t, 1)
      modifies this
      ensures Valid() && old(trace) <= trace
      ensures calls >= old(calls) && (ok <==> NoneFails(faults, old(calls), calls))
      ensures if ok then Now().pc == Nuking(t, |cfg.Areas()|) else Now().pc == Idle
    {
      var areas := cfg.Areas();
      for i := 1 to |areas|
        invariant Valid() && old(trace) <= trace && Now().pc == Nuking(t, i)
        invariant calls >= old(calls) && NoneFails(faults, old(calls), calls)
      {
        if areas[i].Skipped() {
          Log(NextArea);
        } else {
          ok := RemoveAll(t, i, areas[i]);
          if !ok {
            return;
          }
        }
      }
      return true;
    }

    /** os.CreateTemp: an unused name next to the target. */
    method CreateTempFile(t: Tokens, i: nat) returns (serial: nat)
      requires Valid() && Now().pc == Writing(t, i) && i < |cfg.names|
      modifies this`disk, this`trace
      ensures Valid() && old(trace) <= trace && Now().pc == Staging(t, i, serial, false)
      ensures CachedFiles(disk) == CachedFiles(old(disk))
    {
      var name := cfg.names[i];
      serial := 0;
      ghost var rest := disk.Keys;
      while Temp(name, serial) in disk
        invariant forall k | k >= serial && Temp(name, k) in disk :: Temp(name, k) in rest
        decreases |rest|
      {
        rest := rest - {Temp(name, serial)};
        serial := serial + 1;
      }
      disk := disk[Temp(name, serial) := Text("")];
      Log(CreateTemp(serial));
    }

    /** The error path of writeAtomic: the tempfile is removed best-effort. */
    method Abandon(t: Tokens, i: nat, serial: nat)
      requires Valid() && i < |cfg.names| && Now().pc.Staging?
      requires Now().pc.t == t && Now().pc.i == i && Now().pc.serial == serial
      modifies this
      ensures Valid() && old(trace) <= trace && Now().pc == Idle && calls == old(calls) + 1
      ensures disk == if CallFails(faults, old(calls)) then old(disk)
                      else old(disk) - {Temp(cfg.names[i], serial)}
    {
      var failed := Fault();
      if !failed {
        disk := disk - {Temp(cfg.names[i], serial)};
      }
      Log(Fail(!failed));
    }

    /** A call on the tempfile that may fail and then takes the error path. */
    method Attempt(t: Tokens, i: nat, serial: nat) returns (ok: bool)
      requires Valid() && i < |cfg.names| && Now().pc.Staging?
      requires Now().pc.t == t && Now().pc.i == i && Now().pc.serial == serial
      modifies this
      ensures Valid() && old(trace) <= trace
      ensures calls >= old(calls) && (ok <==> NoneFails(faults, old(calls), calls))
      ensures ok == !CallFails(faults, old(calls))
      ensures if ok then disk == old(disk) && trace == old(trace) && calls == old(calls) + 1 else Now().pc == Idle
    {
      var failed := Fault();
      if failed {
        Abandon(t, i, serial);
      }
      return !failed;
    }

    /** The first half of writeAtomic: a tempfile with the complete value. */
    method StageSidecar(t: Tokens, i: nat) returns (ok: bool, serial: nat)
      requires Valid() && Now().pc == Writing(t, i) && i < |cfg.names|
      requires t.Keys == cfg.NameSet()
      modifies this
      ensures Valid() && old(trace) <= trace
      ensures calls >= old(calls) && (ok <==> NoneFails(faults, old(calls), calls))
      ensures if ok then Now().pc == Staging(t, i, serial, true) else Now().pc == Idle
      ensures ok ==> Temp(cfg.names[i], serial) in disk && calls == old(calls) + 3
      ensures ok ==> CachedFiles(disk) == CachedFiles(old(disk))
    {
      var failed := Fault();
      if failed {
        Log(Fail(false));
        return false, 0;
      }
      serial := CreateTempFile(t, i);
      ok := Attempt(t, i, serial);  // chmod
      if !ok {
        return;
      }
      ok := Attempt(t, i, serial);  // write
      if !ok {
        return;
      }
      var name := cfg.names[i];
      assert t[name][..|t[name]|] == t[name];
      disk := disk[Temp(name, serial) := Text(t[name])];
      Log(WriteTemp(|t[name]|));
    }

    /** writeAtomic for one sidecar: stage it, sync, close, rename. */
    method WriteSidecar(t: Tokens, i: nat) returns (ok: bool)
      requires Valid() && Now().pc == Writing(t, i) && i < |cfg.names|
      requires t.Keys == cfg.NameSet()
      modifies this
      ensures Valid() && old(trace) <= trace
      ensures calls >= old(calls) && (ok <==> NoneFails(faults, old(calls), calls))
      ensures if ok then Now().pc == Writing(t, i + 1) else Now().pc == Idle
      ensures ok ==> calls == old(calls) + 6
      ensures ok ==> CachedFiles(disk) == CachedFiles(old(disk))
    {
      var serial;
      ok, serial := StageSidecar(t, i);
      if !ok {
        return;
      }
      ok := Attempt(t, i, serial);  // sync
      if !ok {
        return;
      }
      ok := Attempt(t, i, serial);  // close
      if !ok {
        return;
      }
      ok := Attempt(t, i, serial);  // rename
      if !ok {
        return;
      }
      var temp := Temp(cfg.names[i], serial);
      disk := disk[Sidecar(cfg.names[i]) := disk[temp]] - {temp};
      Log(Rename);
    }

    method WriteSidecars(t: Tokens) returns (ok: bool)
      requires Valid() && Now().pc == Writing(t, 0)
      requires t.Keys == cfg.NameSet()
      modifies this
      ensures Valid() && old(trace) <= trace
      ensures calls >= old(calls) && (ok <==> NoneFails(faults, old(calls), calls))
      ensures ok ==> calls == old(calls) + 6 * |cfg.names|
      ensures if ok then Now().pc == Ready(t) else Now().pc == Idle
      ensures ok ==> CachedFiles(disk) == CachedFiles(old(disk))
    {
      ghost var kept := CachedFiles(disk);
      for i := 0 to |cfg.names|
        invariant Valid() && old(trace) <= trace && Now().pc == Writing(t, i)
        invariant calls >= old(calls) && NoneFails(faults, old(calls), calls)
        invariant CachedFiles(disk) == kept && calls == old(calls) + 6 * i
      {
        ok := WriteSidecar(t, i);
        if !ok {
          return;
        }
      }
      Log(Finish);
      return true;
    }

    /** Open up to the point where the sidecars can be written. */
    method MakeReadyToWrite(t: Tokens) returns (ok: bool)
      requires Valid() && Now().pc == Idle && t.Keys == cfg.NameSet()
      modifies this
      ensures Valid() && old(trace) <= trace
      ensures calls >= old(calls) && (ok <==> NoneFails(faults, old(calls), calls))
      ensures if ok then Now().pc == Writing(t, 0) else Now().pc == Idle
      ensures ok && !old(SomeMismatch(cfg, disk, t)) ==> calls == old(calls) + 1 + |cfg.names|
      ensures ok ==> CachedFiles(disk) == if old(SomeMismatch(cfg, disk, t)) then map[] else CachedFiles(old(disk))
    {
      Log(Start(t));
      ok := Try();  // creating the entries directory
      if !ok {
        return;
      }
      var nuke;
      ok, nuke := TokensMismatched(t);
      if ok && nuke {
        ok := NukeEntries(t);
      }
    }

    /** Open: everything it does is a run of the step system, so a crash at any
        point is covered. It succeeds exactly when none of the system calls that
        it makes fails. On success the sidecars hold the tokens, and the cached
        files are gone exactly when a present sidecar differed. */
    method Open(t: Tokens) returns (ok: bool)
      requires Valid() && Now().pc == Idle && t.Keys == cfg.NameSet()
      modifies this
      ensures Valid() && old(trace) <= trace
      ensures if ok then Now().pc == Ready(t) else Now().pc == Idle
      ensures calls > old(calls)
      ensures ok <==> forall k | old(calls) <= k < calls && k < |faults| :: !faults[k]
      ensures ok && !old(SomeMismatch(cfg, disk, t)) ==> calls == old(calls) + 1 + 7 * |cfg.names|
      ensures ok ==> SidecarsAre(cfg, disk, t) && AllUnder(disk, t)
      ensures ok ==> CachedFiles(disk) == if old(SomeMismatch(cfg, disk, t)) then map[] else CachedFiles(old(disk))
    {
      ok := MakeReadyToWrite(t);
      if ok {
        ok := WriteSidecars(t);
      }
      NoneFailsMeans(faults, old(calls), calls);
      RunsKeepInv(cfg, trace);
    }
  }
}
