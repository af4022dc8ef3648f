// Vocabulary shared by the component models: options, behaviours of a
// transition system, and sums over finite maps.

module Common {

  datatype Option<+T> = None | Some(value: T)

  // Durations are counted in nanoseconds.
  const MICROSECOND: int := 1_000
  const MILLISECOND: int := 1_000_000
  const SECOND: int := 1_000_000_000

  function Max(a: int, b: int): int { if a < b then b else a }

  function MinReal(a: real, b: real): real { if a <= b then a else b }

  /** There is always a number that is not taken yet. */
  lemma {:induction false} FreshNat(taken: set<nat>) returns (n: nat)
    ensures n !in taken && forall x | x in taken :: x < n
  {
    n := 0;
    if taken != {} {
      var x :| x in taken;
      var rest := taken - {x};
      var m := FreshNat(rest);
      n := Max(m, x + 1);
      forall y | y in taken
        ensures y < n
      {
        assert y != x ==> y in rest;
      }
    }
  }

  // ---------- Behaviours of a transition system ----------

  /** A finite behaviour: it starts in an initial state and every two
      neighbouring states are related by one step. */
  ghost predicate Behavior<S(!new)>(init: S -> bool, next: (S, S) -> bool, run: seq<S>) {
    && 0 < |run|
    && init(run[0])
    && forall i | 0 <= i < |run| - 1 :: next(run[i], run[i + 1])
  }

  /** What holds initially and is kept by every step holds in every state of
      every behaviour. */
  lemma {:induction false} Invariance<S(!new)>(
      init: S -> bool, next: (S, S) -> bool, inv: S -> bool, run: seq<S>)
    requires Behavior(init, next, run)
    requires forall s | init(s) :: inv(s)
    requires forall s, s' | inv(s) && next(s, s') :: inv(s')
    ensures forall i | 0 <= i < |run| :: inv(run[i])
  {
    for k := 0 to |run|
      invariant forall i | 0 <= i < k :: inv(run[i])
    {
      if k > 0 {
        assert next(run[k - 1], run[k - 1 + 1]);
      }
    }
  }

  /** One more step makes a longer behaviour. */
  lemma BehaviorGrows<S(!new)>(init: S -> bool, next: (S, S) -> bool, run: seq<S>, s: S)
    requires Behavior(init, next, run) && next(run[|run| - 1], s)
    ensures Behavior(init, next, run + [s])
  {
    var longer := run + [s];
    forall i | 0 <= i < |longer| - 1
      ensures next(longer[i], longer[i + 1])
    {
      if i < |run| - 1 {
        assert next(run[i], run[i + 1]);
      }
    }
  }

  // ---------- Sums over finite maps ----------

  /** The total weight of the values of a map. */
  ghost function Sum<K, P>(m: map<K, P>, w: P -> int): int
    decreases |m|
  {
    if m == map[] then
      0
    else
      var k :| k in m;
      assert |(m - {k}).Keys| < |m.Keys| by { assert (m - {k}).Keys == m.Keys - {k}; }
      w(m[k]) + Sum(m - {k}, w)
  }

  /** Any key can be taken out first. */
  lemma {:induction false} SumPick<K, P>(m: map<K, P>, k: K, w: P -> int)
    requires k in m
    ensures Sum(m, w) == w(m[k]) + Sum(m - {k}, w)
    decreases |m|
  {
    var j :| j in m && Sum(m, w) == w(m[j]) + Sum(m - {j}, w);
    if j != k {
      assert |(m - {j}).Keys| < |m.Keys| by { assert (m - {j}).Keys == m.Keys - {j}; }
      assert |(m - {k}).Keys| < |m.Keys| by { assert (m - {k}).Keys == m.Keys - {k}; }
      SumPick(m - {j}, k, w);
      SumPick(m - {k}, j, w);
      assert (m - {j}) - {k} == (m - {k}) - {j};
    }
  }

  lemma SumUpdate<K, P>(m: map<K, P>, k: K, p: P, w: P -> int)
    ensures Sum(m[k := p], w) == Sum(m, w) + w(p) - (if k in m then w(m[k]) else 0)
  {
    SumPick(m[k := p], k, w);
    assert m[k := p] - {k} == m - {k};
    if k in m {
      SumPick(m, k, w);
    } else {
      assert m - {k} == m;
    }
  }

  lemma SumRemove<K, P>(m: map<K, P>, k: K, w: P -> int)
    requires k in m
    ensures Sum(m - {k}, w) == Sum(m, w) - w(m[k])
  {
    SumPick(m, k, w);
  }

  /** Non-negative weights: the sum bounds every one of them, so it is zero
      only when all of them are. */
  lemma {:induction false} SumBounds<K, P>(m: map<K, P>, w: P -> int)
    requires forall k | k in m :: w(m[k]) >= 0
    ensures Sum(m, w) >= 0
    ensures forall k | k in m :: w(m[k]) <= Sum(m, w)
    decreases |m|
  {
    forall k | k in m
      ensures 0 <= w(m[k]) <= Sum(m, w)
    {
      SumPick(m, k, w);
      assert |(m - {k}).Keys| < |m.Keys| by { assert (m - {k}).Keys == m.Keys - {k}; }
      SumBounds(m - {k}, w);
    }
    if m != map[] {
      var k :| k in m;
      assert w(m[k]) <= Sum(m, w);
    }
  }

  /** Maps whose values weigh the same, key by key, have the same sum. */
  lemma {:induction false} SumSame<K, P, Q>(m: map<K, P>, m': map<K, Q>, w: P -> int, w': Q -> int)
    requires m.Keys == m'.Keys && forall k | k in m :: w(m[k]) == w'(m'[k])
    ensures Sum(m, w) == Sum(m', w')
    decreases |m|
  {
    if m != map[] {
      var k :| k in m;
      assert k in m';
      SumPick(m, k, w);
      SumPick(m', k, w');
      assert (m - {k}).Keys == m.Keys - {k} && (m' - {k}).Keys == m'.Keys - {k};
      assert |(m - {k}).Keys| < |m.Keys|;
      SumSame(m - {k}, m' - {k}, w, w');
    } else {
      assert m'.Keys == {};
      assert m' == map[];
    }
  }

  /** A sum of weights that are all zero is zero. */
  lemma {:induction false} SumZero<K, P>(m: map<K, P>, w: P -> int)
    requires forall k | k in m :: w(m[k]) == 0
    ensures Sum(m, w) == 0
    decreases |m|
  {
    if m != map[] {
      var k :| k in m;
      SumPick(m, k, w);
      assert |(m - {k}).Keys| < |m.Keys| by { assert (m - {k}).Keys == m.Keys - {k}; }
      SumZero(m - {k}, w);
    }
  }

  /** A set of keys whose values weigh at least one is no larger than the sum. */
  lemma {:induction false} SumAtLeast<K, P>(m: map<K, P>, w: P -> int, keys: set<K>)
    requires keys <= m.Keys && (forall k | k in m :: w(m[k]) >= 0) && forall k | k in keys :: w(m[k]) >= 1
    ensures |keys| <= Sum(m, w)
    decreases keys
  {
    if keys == {} {
      SumBounds(m, w);
    } else {
      var k :| k in keys;
      SumPick(m, k, w);
      SumAtLeast(m - {k}, w, keys - {k});
    }
  }

  // ---------- Winding down ----------

  /** What is left to do, when every step either does some of the work or keeps
      the work and takes one of the extra turns, of which there are at most as
      many as there is work. */
  ghost function LeftToDo(bound: nat, work: nat, turns: nat): nat { (bound + 1) * work + turns }

  lemma WorkOrTurnWindsDown(bound: nat, work: nat, turns: nat, work': nat, turns': nat)
    requires turns' <= work' <= bound
    requires work' < work || (work' == work && turns' < turns)
    ensures LeftToDo(bound, work', turns') < LeftToDo(bound, work, turns)
  {
    if work' < work {
      assert (bound + 1) * (work' + 1) <= (bound + 1) * work;
    }
  }

  // ---------- Swapping two items ----------

  function Swapped<T>(s: seq<T>, i: nat, j: nat): seq<T>
    requires i < |s| && j < |s|
  {
    s[i := s[j]][j := s[i]]
  }

  lemma SwapKeepsItems<T>(s: seq<T>, i: nat, j: nat)
    requires i < |s| && j < |s|
    ensures multiset(Swapped(s, i, j)) == multiset(s)
  {
  }

  method Swap<T>(a: array<T>, i: nat, j: nat)
    requires i < a.Length && j < a.Length
    modifies a
    ensures a[..] == Swapped(old(a[..]), i, j)
    ensures a[i] == old(a[j]) && a[j] == old(a[i])
    ensures forall k | 0 <= k < a.Length && k != i && k != j :: a[k] == old(a[k])
  {
    a[i], a[j] := a[j], a[i];
  }
}
