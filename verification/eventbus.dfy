// internal/eventbus: the synchronous bus.
//
// Publish reads the registrations twice, releasing the lock in between: it
// collects and sorts the ids, then looks the handlers up. Subscribe and
// Unsubscribe may happen between the two readings.

module SyncBus {
  import opened Common

  type Id = nat

  datatype Bus<H> = Bus(nextID: Id, handlers: map<Id, H>)

  datatype Event<H> = Subscribe(h: H) | Unsubscribe(id: Id)

  function Step<H>(b: Bus<H>, e: Event<H>): Bus<H> {
    match e
    case Subscribe(h) => Bus(b.nextID + 1, b.handlers[b.nextID := h])
    case Unsubscribe(id) => b.(handlers := b.handlers - {id})
  }

  ghost predicate Init<H>(b: Bus<H>) { b == Bus(0, map[]) }

  ghost predicate Next<H(!new)>(b: Bus<H>, b': Bus<H>) {
    exists e :: b' == Step(b, e)
  }

  ghost predicate IsRun<H(!new)>(run: seq<Bus<H>>) {
    Behavior(b => Init(b), (b, b') => Next(b, b'), run)
  }

  lemma {:induction false} IdsAreFresh<H(!new)>(run: seq<Bus<H>>, i: nat)
    requires IsRun(run) && i < |run|
    ensures forall id | id in run[i].handlers :: id < run[i].nextID
  {
    if i > 0 {
      IdsAreFresh(run, i - 1);
      var next := (b: Bus<H>, b': Bus<H>) => Next(b, b');
      assert next(run[i - 1], run[i - 1 + 1]);
    }
  }

  /** An id is never reused: whoever is found under it later is the handler
      that was registered under it before, and newcomers get larger ids. */
  lemma {:induction false} IdsAreNotReused<H(!new)>(run: seq<Bus<H>>, i: nat, j: nat)
    requires IsRun(run) && i <= j < |run|
    ensures run[i].nextID <= run[j].nextID
    ensures forall id | id in run[j].handlers && id < run[i].nextID ::
      id in run[i].handlers && run[i].handlers[id] == run[j].handlers[id]
    decreases j - i
  {
    if i < j {
      IdsAreNotReused(run, i, j - 1);
      IdsAreFresh(run, j - 1);
      var next := (b: Bus<H>, b': Bus<H>) => Next(b, b');
      assert next(run[j - 1], run[j - 1 + 1]);
    } else {
      IdsAreFresh(run, i);
    }
  }

  ghost predicate Ascending(ids: seq<Id>) {
    forall a, b | 0 <= a < b < |ids| :: ids[a] < ids[b]
  }

  /** The second reading: the handlers that are still registered, in order. */
  function Resolve<H>(ids: seq<Id>, handlers: map<Id, H>): seq<H> {
    if ids == [] then []
    else (if ids[0] in handlers then [handlers[ids[0]]] else []) + Resolve(ids[1..], handlers)
  }

  function StillThere<H>(ids: seq<Id>, handlers: map<Id, H>): seq<Id> {
    if ids == [] then []
    else (if ids[0] in handlers then [ids[0]] else []) + StillThere(ids[1..], handlers)
  }

  lemma TailAscends(ids: seq<Id>)
    requires ids != [] && Ascending(ids)
    ensures Ascending(ids[1..]) && forall id | id in ids[1..] :: ids[0] < id
  {
  }

  lemma PrependAscends(id: Id, rest: seq<Id>)
    requires Ascending(rest) && forall other | other in rest :: id < other
    ensures Ascending([id] + rest)
  {
    assert forall k | 0 <= k < |rest| :: rest[k] in rest;
  }

  lemma {:induction false} StillThereAscends<H>(ids: seq<Id>, handlers: map<Id, H>)
    requires Ascending(ids)
    ensures Ascending(StillThere(ids, handlers))
    ensures forall id :: id in StillThere(ids, handlers) <==> id in ids && id in handlers
  {
    if ids != [] {
      var first, rest := ids[0], StillThere(ids[1..], handlers);
      TailAscends(ids);
      StillThereAscends(ids[1..], handlers);
      PrependAscends(first, rest);
      assert [] + rest == rest;
      assert forall id :: id in ids <==> id == first || id in ids[1..];
    }
  }

  lemma {:induction false} ResolveByIds<H>(ids: seq<Id>, handlers: map<Id, H>)
    ensures |Resolve(ids, handlers)| == |StillThere(ids, handlers)|
    ensures forall k | 0 <= k < |StillThere(ids, handlers)| ::
      StillThere(ids, handlers)[k] in handlers && Resolve(ids, handlers)[k] == handlers[StillThere(ids, handlers)[k]]
  {
    if ids != [] {
      ResolveByIds(ids[1..], handlers);
    }
  }

  /** Publish delivers to exactly the handlers registered at both readings,
      each once, in the order in which they subscribed, whatever happened in
      between. kept lists their ids. */
  lemma PublishDelivers<H(!new)>(run: seq<Bus<H>>, i: nat, j: nat, ids: seq<Id>) returns (kept: seq<Id>)
    requires IsRun(run) && i <= j < |run|
    requires Ascending(ids) && forall id :: id in ids <==> id in run[i].handlers
    ensures Ascending(kept)
    ensures forall id :: id in kept <==> id in run[i].handlers && id in run[j].handlers
    ensures var delivered := Resolve(ids, run[j].handlers);
            && |delivered| == |kept|
            && forall k | 0 <= k < |kept| ::
                 kept[k] in run[i].handlers && delivered[k] == run[i].handlers[kept[k]]
  {
    kept := StillThere(ids, run[j].handlers);
    StillThereAscends(ids, run[j].handlers);
    ResolveByIds(ids, run[j].handlers);
    IdsAreNotReused(run, i, j);
    IdsAreFresh(run, i);
  }

  /** The events lead along the run. */
  ghost predicate LedBy<H>(run: seq<Bus<H>>, events: seq<Event<H>>) {
    |run| == |events| + 1 && forall k | 0 <= k < |events| :: run[k + 1] == Step(run[k], events[k])
  }

  ghost predicate Unsubscribed<H>(events: seq<Event<H>>, id: Id, from: nat, to: nat)
    requires to <= |events|
  {
    exists k | from <= k < to :: events[k] == Event<H>.Unsubscribe(id)
  }

  /** The handlers are called after the second reading, at state j, without the
      lock: the one called at state n is no longer registered then exactly when
      its id was unsubscribed in between. */
  lemma {:induction false} CalledHandlerHasLeftIffUnsubscribed<H(!new)>(
      run: seq<Bus<H>>, events: seq<Event<H>>, j: nat, n: nat, id: Id)
    requires IsRun(run) && LedBy(run, events) && j <= n < |run| && id in run[j].handlers
    ensures id !in run[n].handlers <==> Unsubscribed(events, id, j, n)
    ensures id in run[n].handlers ==> run[n].handlers[id] == run[j].handlers[id]
    decreases n - j
  {
    IdsAreFresh(run, j);
    IdsAreNotReused(run, j, n);
    if j < n {
      CalledHandlerHasLeftIffUnsubscribed(run, events, j, n - 1, id);
      IdsAreNotReused(run, j, n - 1);
      var last := events[n - 1];
      assert run[n - 1 + 1] == Step(run[n - 1], last);
      if last == Event<H>.Unsubscribe(id) {
        assert Unsubscribed(events, id, j, n);
      } else {
        assert id in run[n].handlers <==> id in run[n - 1].handlers;
      }
    }
  }

  /** It does happen: after both readings the subscriber leaves, and only then
      its handler is called. */
  lemma LeaverIsStillCalled<H(!new)>(h: H) returns (run: seq<Bus<H>>, j: nat)
    ensures IsRun(run) && j < |run| && Resolve([0], run[j].handlers) == [h] && 0 !in run[|run| - 1].handlers
  {
    var b0 := Bus(0, map[]);
    var b1 := Step(b0, Event.Subscribe(h));
    var b2 := Step(b1, Event<H>.Unsubscribe(0));
    run, j := [b0, b1, b2], 1;
    assert Next(b0, b1) && Next(b1, b2);
    assert Resolve([], b1.handlers) == [];
  }

  // ---------- The bus object ----------

  class Sync<H> {
    var nextID: Id
    var handlers: map<Id, H>

    ghost function View(): Bus<H> reads this { Bus(nextID, handlers) }

    constructor ()
      ensures Init(View())
    {
      nextID, handlers := 0, map[];
    }

    method Subscribe(h: H) returns (id: Id)
      modifies this
      ensures View() == Step(old(View()), Event.Subscribe(h)) && id == old(nextID)
      ensures handlers == old(handlers)[id := h] && nextID == old(nextID) + 1
    {
      id := nextID;
      nextID := nextID + 1;
      handlers := handlers[id := h];
    }

    method Unsubscribe(id: Id)
      modifies this
      ensures View() == Step(old(View()), Event.Unsubscribe(id))
      ensures handlers == old(handlers) - {id} && nextID == old(nextID)
    {
      handlers := handlers - {id};
    }

    /** The first reading of Publish, sorted: what PublishDelivers asks for. */
    method CollectIDs() returns (ids: array<Id>)
      ensures fresh(ids) && Ascending(ids[..])
      ensures forall id :: id in ids[..] <==> id in handlers
    {
      ids := new Id[|handlers.Keys|];
      var left, n := handlers.Keys, 0;
      while left != {}
        invariant n + |left| == ids.Length
        invariant left <= handlers.Keys
        invariant forall id :: id in ids[..n] <==> id in handlers.Keys - left
        invariant forall a, b | 0 <= a < b < n :: ids[a] != ids[b]
        decreases left
      {
        var id :| id in left;
        assert id !in ids[..n];
        ids[n] := id;
        assert ids[..n + 1] == ids[..n] + [id];
        left := left - {id};
        n := n + 1;
      }
      assert ids[..n] == ids[..];
      ghost var collected := ids[..];
      SortIDs(ids);
      SortedDistinctIsAscending(ids[..], collected);
    }

    /** The second reading of Publish. */
    method LookUp(ids: array<Id>) returns (found: seq<H>)
      ensures found == Resolve(ids[..], handlers)
    {
      found := [];
      for i := 0 to ids.Length
        invariant Resolve(ids[..], handlers) == found + Resolve(ids[i..], handlers)
      {
        assert ids[i..][1..] == ids[i + 1..];
        if ids[i] in handlers {
          found := found + [handlers[ids[i]]];
        }
      }
      assert ids[ids.Length..] == [];
    }
  }

  // ---------- sortIDs ----------

  ghost predicate SameItems(a: seq<Id>, b: seq<Id>) { multiset(a) == multiset(b) }

  ghost predicate Distinct(ids: seq<Id>) {
    forall a, b | 0 <= a < b < |ids| :: ids[a] != ids[b]
  }

  lemma {:induction false} DistinctCounts(ids: seq<Id>, id: Id)
    requires Distinct(ids)
    ensures multiset(ids)[id] <= 1
  {
    if ids != [] {
      DistinctCounts(ids[1..], id);
      assert ids == [ids[0]] + ids[1..];
      if id == ids[0] {
        assert id !in ids[1..];
      }
    }
  }

  /** Sorting distinct ids makes them strictly ascending. */
  lemma SortedDistinctIsAscending(sorted: seq<Id>, ids: seq<Id>)
    requires Distinct(ids) && SameItems(sorted, ids)
    requires forall a, b | 0 <= a < b < |sorted| :: sorted[a] <= sorted[b]
    ensures Ascending(sorted)
    ensures forall id :: id in sorted <==> id in ids
  {
    forall a, b | 0 <= a < b < |sorted|
      ensures sorted[a] != sorted[b]
    {
      var id := sorted[a];
      DistinctCounts(ids, id);
      assert sorted == sorted[..b] + [sorted[b]] + sorted[b + 1..];
      assert id in sorted[..b];
      assert multiset(sorted) == multiset(sorted[..b]) + multiset{sorted[b]} + multiset(sorted[b + 1..]);
    }
    assert forall id :: id in sorted <==> id in multiset(sorted);
    assert forall id :: id in ids <==> id in multiset(ids);
  }

  /** The first n items are in order. */
  ghost predicate SortedUpTo(s: seq<Id>, n: nat) {
    n <= |s| && forall a, b | 0 <= a < b < n :: s[a] <= s[b]
  }

  /** The first items up to i are sorted, but for the one at j that is sinking. */
  ghost predicate SortedBut(s: seq<Id>, i: nat, j: nat) {
    j <= i < |s| && forall a, b | 0 <= a < b <= i && b != j :: s[a] <= s[b]
  }

  /** Item j, swapped down past the larger ones before it. */
  function Sunk(s: seq<Id>, j: nat): (r: seq<Id>)
    requires j < |s|
    ensures |r| == |s|
    decreases j
  {
    if j > 0 && s[j - 1] > s[j] then Sunk(Swapped(s, j, j - 1), j - 1) else s
  }

  lemma SinkOnce(s: seq<Id>, i: nat, j: nat)
    requires SortedBut(s, i, j) && 0 < j && s[j - 1] > s[j]
    ensures SortedBut(Swapped(s, j, j - 1), i, j - 1)
    ensures SameItems(Swapped(s, j, j - 1), s)
  {
    SwapKeepsItems(s, j, j - 1);
  }

  /** Sinking puts the item in its place and loses nothing. */
  lemma {:induction false} SinkingSorts(s: seq<Id>, i: nat, j: nat)
    requires SortedBut(s, i, j)
    ensures SortedUpTo(Sunk(s, j), i + 1) && SameItems(Sunk(s, j), s)
    decreases j
  {
    if j > 0 && s[j - 1] > s[j] {
      SinkOnce(s, i, j);
      SinkingSorts(Swapped(s, j, j - 1), i, j - 1);
    } else {
      forall a, b | 0 <= a < b <= i
        ensures s[a] <= s[b]
      {
        assert b == j && a < j - 1 ==> s[a] <= s[j - 1];
      }
    }
  }

  /** What the outer loop makes of its items from its turn i on. */
  function SortedFrom(s: seq<Id>, i: nat): seq<Id>
    decreases |s| - i
  {
    if i >= |s| then s else SortedFrom(Sunk(s, i), i + 1)
  }

  lemma {:induction false} SortingSorts(s: seq<Id>, i: nat)
    requires SortedUpTo(s, i)
    ensures SortedUpTo(SortedFrom(s, i), |s|) && SameItems(SortedFrom(s, i), s)
    decreases |s| - i
  {
    if i < |s| {
      SinkingSorts(s, i, i);
      SortingSorts(Sunk(s, i), i + 1);
    }
  }

  /** Insertion sort in place: a sorting permutation. */
  method SortIDs(ids: array<Id>)
    modifies ids
    ensures SortedUpTo(ids[..], ids.Length)
    ensures SameItems(ids[..], old(ids[..]))
  {
    ghost var before := ids[..];
    var i := 1;
    while i < ids.Length
      invariant 1 <= i
      invariant SortedFrom(before, 1) == SortedFrom(ids[..], i)
      decreases ids.Length - i
    {
      Insert(ids, i);
      i := i + 1;
    }
    if before != [] {
      SortingSorts(before, 1);
    }
  }

  /** The inner loop: item i sinks to its place among those before it. */
  method Insert(ids: array<Id>, i: nat)
    requires i < ids.Length
    modifies ids
    ensures ids[..] == Sunk(old(ids[..]), i)
  {
    var j := i;
    while j > 0 && ids[j - 1] > ids[j]
      invariant 0 <= j <= i
      invariant Sunk(ids[..], j) == Sunk(old(ids[..]), i)
    {
      Swap(ids, j, j - 1);
      j := j - 1;
    }
  }
}
