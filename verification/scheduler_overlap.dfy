// internal/scheduler: when two invocations of one name can overlap.
//
// The running flag belongs to an entry, and Schedule replaces the entry of its
// name. Whether an invocation of an old entry can meet one of the new entry is
// decided when the new one is registered.

module SchedulerOverlap {
  import opened Common
  import opened Scheduler
  import opened SchedulerRuns

  ghost predicate HasName(s: State, id: EntryId, name: string) { id in s.items && s.items[id].name == name }

  /** An invocation that holds the running flag of an entry of this name. */
  ghost predicate Holder(s: State, r: RunId, name: string) {
    r in s.runs && s.runs[r].HoldsFlag() && HasName(s, s.runs[r].entry, name)
  }

  ghost predicate Overlap(s: State, name: string) {
    exists a, b :: a != b && Holder(s, a, name) && Holder(s, b, name)
  }

  /** A RunDue call has collected the entry and not looked at it yet. */
  ghost predicate Collected(s: State, id: EntryId) { exists c | c in s.calls :: id in s.calls[c].todo }

  /** An entry of the name has an invocation, or may still get one from a RunDue
      call under way. */
  ghost predicate EntryLives(s: State, name: string) {
    exists id :: HasName(s, id, name) && (s.items[id].running || Collected(s, id))
  }

  /** A step other than registering this name. */
  ghost predicate NextApart(name: string, s: State, s': State) {
    exists e: Event :: Enabled(s, e) && s' == Step(s, e) && !(e.Register? && e.name == name)
  }

  ghost predicate Path(name: string, s: State, path: seq<State>) {
    && path != [] && path[0] == s
    && forall k | 0 <= k < |path| - 1 :: NextApart(name, path[k], path[k + 1])
  }

  /** Two invocations of the name can come to overlap without it being
      registered once more. */
  ghost predicate CanOverlap(s: State, name: string) {
    exists path :: Path(name, s, path) && Overlap(path[|path| - 1], name)
  }

  lemma HolderMeansRunning(s: State, r: RunId)
    requires FlagsCount(s) && r in s.runs && s.runs[r].HoldsFlag() && s.runs[r].entry in s.items
    ensures s.items[s.runs[r].entry].running
  {
    var w := Flag(s.runs[r].entry);
    SumBounds(s.runs, w);
    assert w(s.runs[r]) == 1;
  }

  lemma HoldersDiffer(s: State, a: RunId, b: RunId, name: string)
    requires FlagsCount(s) && a != b && Holder(s, a, name) && Holder(s, b, name)
    ensures s.runs[a].entry != s.runs[b].entry
  {
    if s.runs[a].entry == s.runs[b].entry {
      TwoWeighMore(s.runs, a, b, Flag(s.runs[a].entry));
    }
  }

  // ---------- No overlap when no earlier entry lives ----------

  /** Of all entries of the name only this one has or can get an invocation. */
  ghost predicate OnlyLives(s: State, name: string, e: EntryId) {
    && (name in s.jobs ==> s.jobs[name] == e)
    && forall id | HasName(s, id, name) && id != e :: !s.items[id].running && !Collected(s, id)
  }

  lemma OnlyOneOverlapsNot(s: State, name: string, e: EntryId)
    requires FlagsCount(s) && OnlyLives(s, name, e)
    ensures !Overlap(s, name)
  {
    forall a, b | a != b && Holder(s, a, name) && Holder(s, b, name)
      ensures false
    {
      HolderMeansRunning(s, a);
      HolderMeansRunning(s, b);
      HoldersDiffer(s, a, b, name);
    }
  }

  lemma CollectedWasSo(s: State, e: Event, id: EntryId)
    requires Enabled(s, e) && !e.Collect? && Collected(Step(s, e), id)
    ensures Collected(s, id)
  {
    var s' := Step(s, e);
    var c :| c in s'.calls && id in s'.calls[c].todo;
    assert c in s.calls && id in s.calls[c].todo;
  }

  lemma CollectedIsRegistered(s: State, e: Event, id: EntryId, name: string)
    requires RefersToItems(s) && Enabled(s, e) && e.Collect? && HasName(s, id, name)
    requires Collected(Step(s, e), id) && !Collected(s, id)
    ensures name in s.jobs && s.jobs[name] == id
  {
    var s' := Step(s, e);
    var c :| c in s'.calls && id in s'.calls[c].todo;
    assert c == e.c && id in e.due;
    var n :| n in s.jobs && s.jobs[n] == id;
  }

  lemma ClaimedWasCollected(s: State, c: CallId)
    requires Choosing(s, c)
    ensures Collected(s, s.calls[c].todo[0])
  {
    assert s.calls[c].todo[0] in s.calls[c].todo;
  }

  lemma OnlyLivesStays(s: State, e: Event, name: string, new': EntryId)
    requires RefersToItems(s) && OnlyLives(s, name, new') && Enabled(s, e) && !(e.Register? && e.name == name)
    ensures OnlyLives(Step(s, e), name, new')
  {
    var s' := Step(s, e);
    forall id | HasName(s', id, name) && id != new'
      ensures !s'.items[id].running && !Collected(s', id)
    {
      assert HasName(s, id, name);
      if Collected(s', id) {
        if e.Collect? {
          CollectedIsRegistered(s, e, id, name);
        } else {
          CollectedWasSo(s, e, id);
        }
      }
      if e.Claim? {
        ClaimedWasCollected(s, e.c);
      }
    }
  }

  lemma {:induction false} OnlyLivesAlongPath(name: string, path: seq<State>, e: EntryId, k: nat)
    requires k < |path| && Inv(path[0]) && OnlyLives(path[0], name, e)
    requires forall x | 0 <= x < |path| - 1 :: NextApart(name, path[x], path[x + 1])
    ensures Inv(path[k]) && OnlyLives(path[k], name, e)
  {
    if k > 0 {
      OnlyLivesAlongPath(name, path, e, k - 1);
      assert NextApart(name, path[k - 1], path[k - 1 + 1]);
      var ev: Event :|
        Enabled(path[k - 1], ev) && path[k] == Step(path[k - 1], ev) && !(ev.Register? && ev.name == name);
      StepKeepsInv(path[k - 1], ev);
      OnlyLivesStays(path[k - 1], ev, name, e);
    }
  }

  // ---------- An overlap when an earlier entry lives ----------

  lemma PrependStep(name: string, s: State, s': State, rest: seq<State>) returns (path: seq<State>)
    requires NextApart(name, s, s') && Path(name, s', rest)
    ensures Path(name, s, path) && path[|path| - 1] == rest[|rest| - 1]
  {
    path := [s] + rest;
    forall k | 0 <= k < |path| - 1
      ensures NextApart(name, path[k], path[k + 1])
    {
      if k > 0 {
        assert NextApart(name, rest[k - 1], rest[k - 1 + 1]);
      }
    }
  }

  /** The entry registered under the name is due at first, and nobody has
      touched it yet. */
  ghost predicate Untouched(s: State, name: string, e: EntryId, first: int) {
    && name in s.jobs && s.jobs[name] == e && HasName(s, e, name)
    && !s.items[e].running && s.items[e].nextDue == Some(first)
    && (forall r | r in s.runs :: s.runs[r].entry != e)
    && forall c | c in s.calls :: e !in s.calls[c].todo
  }

  /** A new RunDue call collects the entry. */
  lemma CollectNew(s: State, name: string, e: EntryId, first: int) returns (c: CallId, s': State)
    requires RefersToItems(s) && Untouched(s, name, e, first)
    ensures s' == s.(calls := s.calls[c := Call(first, [e], None)]) && NextApart(name, s, s')
  {
    c := FreshNat(s.calls.Keys);
    s' := s.(calls := s.calls[c := Call(first, [e], None)]);
    assert s.jobs[name] in s.jobs.Values;
    assert Enabled(s, Collect(c, first, [e])) && s' == Step(s, Collect(c, first, [e]));
  }

  /** And claims it. */
  lemma ClaimNew(s: State, name: string, c: CallId, e: EntryId) returns (r: RunId, s': State)
    requires HasName(s, e, name) && !s.items[e].running && Choosing(s, c) && s.calls[c].todo[0] == e
    ensures r !in s.runs && NextApart(name, s, s') && Holder(s', r, name)
    ensures forall x | Holder(s, x, name) :: x != r && Holder(s', x, name)
  {
    r := FreshNat(s.runs.Keys);
    s' := Step(s, Claim(c, r));
    assert Enabled(s, Claim(c, r));
  }

  lemma RunningHasHolder(s: State, id: EntryId, name: string) returns (r: RunId)
    requires FlagsCount(s) && HasName(s, id, name) && s.items[id].running
    ensures Holder(s, r, name)
  {
    SomeoneWeighs(s.runs, Flag(id));
    r :| r in s.runs && Flag(id)(s.runs[r]) != 0;
  }

  /** With an older entry running, a new RunDue call claims the new one too. */
  lemma ClaimBoth(s: State, name: string, id: EntryId, e: EntryId, first: int) returns (path: seq<State>)
    requires RefersToItems(s) && FlagsCount(s)
    requires Untouched(s, name, e, first) && HasName(s, id, name) && s.items[id].running
    ensures Path(name, s, path) && Overlap(path[|path| - 1], name)
  {
    var old' := RunningHasHolder(s, id, name);
    var c, s1 := CollectNew(s, name, e, first);
    assert Holder(s1, old', name);
    var r, s2 := ClaimNew(s1, name, c, e);
    path := PrependStep(name, s1, s2, [s2]);
    path := PrependStep(name, s, s1, path);
  }

  /** How far a RunDue call still is from the end of its list. */
  ghost function StepsLeft(s: State, c: CallId): nat
    requires c in s.calls
  {
    4 * |s.calls[c].todo| +
    if s.calls[c].current.None? || s.calls[c].current.value !in s.runs then 0
    else match s.runs[s.calls[c].current.value].phase
         case Claimed => 3
         case Advanced => 2
         case Added => 1
         case _ => 0
  }

  /** A step by which a RunDue call gets on with its list. */
  ghost predicate GetsOn(s: State, e: Event, c: CallId, id: EntryId)
    requires c in s.calls && s.calls[c].todo != []
  {
    && Enabled(s, e) && (e.Advance? || e.Add? || e.Spawn? || e.Skip? || e.Claim?)
    && (e.Advance? || e.Add? || e.Spawn? ==> s.calls[c].current == Some(e.r) && s.runs[e.r].caller == c)
    && (e.Skip? ==> e.c == c && s.calls[c].todo[0] != id)
    && (e.Claim? ==> e.c == c)
  }

  /** The next step of a RunDue call that has an idle entry on its list. */
  lemma CallerGoesOn(s: State, c: CallId, id: EntryId) returns (e: Event)
    requires Inv(s) && c in s.calls && id in s.calls[c].todo && !s.items[id].running
    ensures GetsOn(s, e, c, id)
  {
    if s.calls[c].current.Some? {
      var r := s.calls[c].current.value;
      assert r in s.runs && s.runs[r].caller == c && s.runs[r].Starting() && StepOfCaller(s, r);
      assert At(s, r, s.runs[r].phase);
      e := if s.runs[r].phase.Claimed? then Advance(r)
           else if s.runs[r].phase.Advanced? then Add(r) else Spawn(r);
    } else if s.items[s.calls[c].todo[0]].running {
      e := Skip(c);
    } else {
      var r := FreshNat(s.runs.Keys);
      e := Claim(c, r);
    }
  }

  /** It brings the entry closer to its claim. */
  lemma CallerComesCloser(s: State, e: Event, c: CallId, id: EntryId)
    requires RefersToItems(s) && CallersMatch(s)
    requires c in s.calls && id in s.calls[c].todo && GetsOn(s, e, c, id)
    ensures var s' := Step(s, e);
            && id in s'.items && c in s'.calls && s'.calls[c].now == s.calls[c].now
            && (id in s'.calls[c].todo || (e.Claim? && s.calls[c].todo[0] == id && s'.items[id].running))
            && StepsLeft(s', c) < StepsLeft(s, c)
  {
    var todo := s.calls[c].todo;
    if e.Skip? || e.Claim? {
      assert todo == [todo[0]] + todo[1..];
    }
  }

  /** It leaves the new entry be. */
  lemma CallerLeavesUntouched(s: State, e: Event, c: CallId, id: EntryId, name: string, new': EntryId, first: int)
    requires RefersToItems(s) && c in s.calls && id in s.calls[c].todo && GetsOn(s, e, c, id)
    requires HasName(s, id, name) && Untouched(s, name, new', first)
    ensures Untouched(Step(s, e), name, new', first) && HasName(Step(s, e), id, name)
  {
    if e.Skip? || e.Claim? {
      assert s.calls[c].todo[0] in s.calls[c].todo;
    }
  }

  lemma OneStepOn(s: State, c: CallId, id: EntryId, name: string, e: EntryId, first: int) returns (s': State)
    requires Inv(s) && c in s.calls && id in s.calls[c].todo && HasName(s, id, name)
    requires Untouched(s, name, e, first) && !s.items[id].running
    ensures NextApart(name, s, s') && Inv(s') && Untouched(s', name, e, first) && HasName(s', id, name)
    ensures s'.items[id].running || (c in s'.calls && id in s'.calls[c].todo && StepsLeft(s', c) < StepsLeft(s, c))
  {
    var ev := CallerGoesOn(s, c, id);
    s' := Step(s, ev);
    CallerComesCloser(s, ev, c, id);
    CallerLeavesUntouched(s, ev, c, id, name, e, first);
    StepKeepsInv(s, ev);
  }

  lemma {:induction false} ReachClaim(s: State, c: CallId, id: EntryId, name: string, e: EntryId, first: int)
    returns (path: seq<State>)
    requires Inv(s) && c in s.calls && id in s.calls[c].todo && HasName(s, id, name)
    requires Untouched(s, name, e, first)
    ensures Path(name, s, path) && Overlap(path[|path| - 1], name)
    decreases StepsLeft(s, c)
  {
    if s.items[id].running {
      path := ClaimBoth(s, name, id, e, first);
    } else {
      var s' := OneStepOn(s, c, id, name, e, first);
      if s'.items[id].running {
        path := ClaimBoth(s', name, id, e, first);
      } else {
        path := ReachClaim(s', c, id, name, e, first);
      }
      path := PrependStep(name, s, s', path);
    }
  }

  // ---------- The exact condition ----------

  lemma RegisterAddsEntry(s: State, name: string, e: EntryId, interval: int, first: int)
    requires Inv(s) && Enabled(s, Register(name, e, interval, first))
    ensures var s' := Step(s, Register(name, e, interval, first));
            && Inv(s') && Untouched(s', name, e, first)
            && e !in s.items && s'.items.Keys == s.items.Keys + {e}
            && (forall id | id in s.items :: s'.items[id] == s.items[id])
            && s'.calls == s.calls
  {
    StepKeepsInv(s, Register(name, e, interval, first));
  }

  lemma NoOverlapWithoutEarlierEntry(before: State, s: State, name: string, e: EntryId)
    requires Inv(s) && !EntryLives(before, name) && e !in before.items
    requires s.items.Keys == before.items.Keys + {e}
    requires forall id | id in before.items :: s.items[id] == before.items[id]
    requires s.calls == before.calls && name in s.jobs && s.jobs[name] == e
    ensures !CanOverlap(s, name)
  {
    NothingElseLives(before, s, name, e);
    forall path | Path(name, s, path)
      ensures !Overlap(path[|path| - 1], name)
    {
      OnlyLivesAlongPath(name, path, e, |path| - 1);
      OnlyOneOverlapsNot(path[|path| - 1], name, e);
    }
  }

  lemma OverlapWithEarlierEntry(s: State, name: string, id: EntryId, e: EntryId, first: int)
    requires Inv(s) && Untouched(s, name, e, first) && HasName(s, id, name)
    requires s.items[id].running || Collected(s, id)
    ensures CanOverlap(s, name)
  {
    if s.items[id].running {
      var path := ClaimBoth(s, name, id, e, first);
    } else {
      var c :| c in s.calls && id in s.calls[c].todo;
      var path := ReachClaim(s, c, id, name, e, first);
    }
  }

  /** Registering a name lets two invocations of it overlap, before it is
      registered again, exactly when an earlier entry of the name is running or
      still on the list of a RunDue call under way. */
  lemma OverlapIffEarlierEntryLives(
      run: seq<State>, i: nat, name: string, e: EntryId, interval: int, first: int)
    requires Behavior(Init, Next, run) && i < |run|
    requires Enabled(run[i], Register(name, e, interval, first))
    ensures CanOverlap(Step(run[i], Register(name, e, interval, first)), name) <==> EntryLives(run[i], name)
  {
    RunsKeepInv(run);
    var before := run[i];
    assert Inv(before);
    var s := Step(before, Register(name, e, interval, first));
    RegisterAddsEntry(before, name, e, interval, first);
    if EntryLives(before, name) {
      var id :| HasName(before, id, name) && (before.items[id].running || Collected(before, id));
      assert Collected(before, id) ==> Collected(s, id);
      OverlapWithEarlierEntry(s, name, id, e, first);
    } else {
      NoOverlapWithoutEarlierEntry(before, s, name, e);
    }
  }

  lemma NothingElseLives(before: State, s: State, name: string, e: EntryId)
    requires !EntryLives(before, name) && e !in before.items
    requires s.items.Keys == before.items.Keys + {e}
    requires forall id | id in before.items :: s.items[id] == before.items[id]
    requires s.calls == before.calls && name in s.jobs && s.jobs[name] == e
    ensures OnlyLives(s, name, e)
  {
    forall id | HasName(s, id, name) && id != e
      ensures !s.items[id].running && !Collected(s, id)
    {
      assert HasName(before, id, name);
      assert Collected(s, id) ==> Collected(before, id);
    }
  }
}
