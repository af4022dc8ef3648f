// internal/random: Fisher-Yates shuffle.
//
// A choice vector lists the source's answers in the order in which Shuffle
// asks for them: first an index in 0..n-1, then one in 0..n-2, down to 0..1.
// The loop maps choice vectors to permutations, one to one and onto.

module Shuffle {
  import opened Common

  /** The answers that IntN may give to a shuffle of n items. */
  ghost predicate Choices(c: seq<nat>, n: nat) {
    && |c| == (if n == 0 then 0 else n - 1)
    && forall k | 0 <= k < |c| :: c[k] < n - k
  }

  /** What a choice vector does to a sequence: the first choice fixes the last
      item for good, the others shuffle what is in front of it. */
  function Apply<T>(s: seq<T>, c: seq<nat>): (r: seq<T>)
    requires Choices(c, |s|)
    ensures |r| == |s|
    ensures |s| > 1 ==> r[|s| - 1] == s[c[0]]
    decreases |s|
  {
    if |s| <= 1 then
      s
    else
      var t := Swapped(s, |s| - 1, c[0]);
      Apply(t[..|s| - 1], c[1..]) + [t[|s| - 1]]
  }

  lemma SplitLast<T>(s: seq<T>)
    requires s != []
    ensures s == s[..|s| - 1] + [s[|s| - 1]]
    ensures multiset(s) == multiset(s[..|s| - 1]) + multiset{s[|s| - 1]}
  {
    assert s == s[..|s| - 1] + [s[|s| - 1]];
  }

  /** Nothing is lost or invented, whatever the source answers. */
  lemma {:induction false} ShuffleIsPermutation<T>(s: seq<T>, c: seq<nat>)
    requires Choices(c, |s|)
    ensures multiset(Apply(s, c)) == multiset(s)
    decreases |s|
  {
    if |s| > 1 {
      var t := Swapped(s, |s| - 1, c[0]);
      SwapKeepsItems(s, |s| - 1, c[0]);
      ShuffleIsPermutation(t[..|s| - 1], c[1..]);
      SplitLast(t);
    }
  }

  // ---------- Choice vectors and permutations correspond ----------

  function IndexOf<T(==)>(s: seq<T>, x: T): (i: nat)
    requires x in s
    ensures i < |s| && s[i] == x
    ensures forall j | 0 <= j < i :: s[j] != x
  {
    if s[0] == x then 0 else 1 + IndexOf(s[1..], x)
  }

  lemma SameLength<T>(s: seq<T>, p: seq<T>)
    requires multiset(p) == multiset(s)
    ensures |p| == |s|
  {
    assert |multiset(p)| == |p| && |multiset(s)| == |s|;
  }

  lemma FrontsMatch<T>(t: seq<T>, p: seq<T>)
    requires multiset(p) == multiset(t) && t != [] && |p| == |t| && p[|p| - 1] == t[|t| - 1]
    ensures multiset(p[..|p| - 1]) == multiset(t[..|t| - 1])
  {
    SplitLast(t);
    SplitLast(p);
    assert multiset(p[..|p| - 1]) == multiset(p) - multiset{p[|p| - 1]};
  }

  /** Bringing the item that p ends with to the end of s leaves in front what
      p has in front. */
  lemma BroughtToEnd<T>(s: seq<T>, p: seq<T>, j: nat)
    requires multiset(p) == multiset(s) && |p| == |s| && j < |s| && s[j] == p[|s| - 1]
    ensures multiset(Swapped(s, |s| - 1, j)[..|s| - 1]) == multiset(p[..|s| - 1])
  {
    SwapKeepsItems(s, |s| - 1, j);
    FrontsMatch(Swapped(s, |s| - 1, j), p);
  }

  /** The first choice towards p does that. */
  lemma FirstChoice<T>(s: seq<T>, p: seq<T>)
    requires multiset(p) == multiset(s)
    ensures |p| == |s|
    ensures |s| > 1 ==>
      var n := |s| - 1;
      && p[n] in s
      && multiset(Swapped(s, n, IndexOf(s, p[n]))[..n]) == multiset(p[..n])
  {
    SameLength(s, p);
    if |s| > 1 {
      var last := p[|s| - 1];
      assert last in multiset(p) && last in multiset(s);
      BroughtToEnd(s, p, IndexOf(s, last));
    }
  }

  /** The choice vector that turns s into p. */
  function ChoicesFor<T(==)>(s: seq<T>, p: seq<T>): (c: seq<nat>)
    requires multiset(p) == multiset(s)
    ensures Choices(c, |s|)
    decreases |s|
  {
    FirstChoice(s, p);
    if |s| <= 1 then
      []
    else
      var n := |s| - 1;
      var j := IndexOf(s, p[n]);
      [j] + ChoicesFor(Swapped(s, n, j)[..n], p[..n])
  }

  /** Onto: every permutation of s is the outcome of some answers. */
  lemma {:induction false} EveryPermutationArises<T>(s: seq<T>, p: seq<T>)
    requires multiset(p) == multiset(s)
    ensures Choices(ChoicesFor(s, p), |s|) && Apply(s, ChoicesFor(s, p)) == p
    decreases |s|
  {
    FirstChoice(s, p);
    if |s| == 1 {
      assert p[0] in multiset(p);
      assert p == s;
    } else if |s| > 1 {
      var n := |s| - 1;
      var front := Swapped(s, n, IndexOf(s, p[n]))[..n];
      EveryPermutationArises(front, p[..n]);
      assert ChoicesFor(s, p)[1..] == ChoicesFor(front, p[..n]);
      SplitLast(p);
    }
  }

  ghost predicate Distinct<T(!new)>(s: seq<T>) {
    forall i, j | 0 <= i < j < |s| :: s[i] != s[j]
  }

  lemma SwapKeepsDistinct<T(!new)>(s: seq<T>, j: nat)
    requires Distinct(s) && j < |s|
    ensures Distinct(Swapped(s, |s| - 1, j)[..|s| - 1])
  {
  }

  /** One to one: for distinct items the outcome gives the answers back. */
  lemma {:induction false} OutcomeDeterminesChoices<T(!new)>(s: seq<T>, c: seq<nat>)
    requires Distinct(s) && Choices(c, |s|)
    ensures multiset(Apply(s, c)) == multiset(s) && ChoicesFor(s, Apply(s, c)) == c
    decreases |s|
  {
    ShuffleIsPermutation(s, c);
    if |s| > 1 {
      var n, p := |s| - 1, Apply(s, c);
      var t := Swapped(s, n, c[0]);
      var front := t[..n];
      assert p[n] == s[c[0]];
      FirstChoice(s, p);
      assert IndexOf(s, p[n]) == c[0];
      SwapKeepsDistinct(s, c[0]);
      OutcomeDeterminesChoices(front, c[1..]);
      assert p[..n] == Apply(front, c[1..]);
      assert ChoicesFor(s, p) == [c[0]] + ChoicesFor(front, p[..n]);
    }
  }

  /** The bijection: on distinct items, each permutation is reached by exactly
      one choice vector. */
  lemma ExactlyOneChoiceVectorPerPermutation<T(!new)>(s: seq<T>, p: seq<T>, c: seq<nat>)
    requires Distinct(s) && multiset(p) == multiset(s) && Choices(c, |s|)
    ensures Apply(s, c) == p <==> c == ChoicesFor(s, p)
  {
    EveryPermutationArises(s, p);
    if Apply(s, c) == p {
      OutcomeDeterminesChoices(s, c);
    }
  }

  // ---------- The loop ----------

  /** One turn of the loop: swapping item i with the chosen one leaves the
      outcome as it was, with one choice less to make. */
  lemma SwapIsOneChoice<T>(s: seq<T>, i: nat, c: seq<nat>)
    requires 0 < i < |s| && Choices(c, i + 1)
    ensures var t := Swapped(s, i, c[0]);
            Choices(c[1..], i) && Apply(s[..i + 1], c) + s[i + 1..] == Apply(t[..i], c[1..]) + t[i..]
  {
    var t := Swapped(s, i, c[0]);
    var u := Swapped(s[..i + 1], i, c[0]);
    assert u == t[..i + 1];
    assert u[..i] == t[..i] && u[i] == t[i];
    assert t[i..] == [t[i]] + s[i + 1..];
  }

  /** With the items after i settled and these answers left, the outcome is target. */
  ghost predicate Halfway<T>(s: seq<T>, i: nat, answers: seq<nat>, target: seq<T>) {
    && i < |s|
    && Choices(answers, i + 1)
    && Apply(s[..i + 1], answers) + s[i + 1..] == target
  }

  lemma TurnKeepsHalfway<T>(s: seq<T>, i: nat, answers: seq<nat>, target: seq<T>)
    requires Halfway(s, i, answers, target) && i > 0
    ensures answers[0] <= i && Halfway(Swapped(s, i, answers[0]), i - 1, answers[1..], target)
  {
    SwapIsOneChoice(s, i, answers);
  }

  lemma HalfwayEnds<T>(s: seq<T>, answers: seq<nat>, target: seq<T>)
    requires Halfway(s, 0, answers, target)
    ensures s == target
  {
    assert s[..1] + s[1..] == s;
  }

  method Copy<T(0)>(items: array<T>) returns (out: array<T>)
    ensures fresh(out) && out[..] == items[..]
  {
    out := new T[items.Length];
    for k := 0 to items.Length
      invariant out[..k] == items[..k]
    {
      out[k] := items[k];
    }
  }

  /** Shuffle itself, drawing its answers from c: the input is left alone and
      the copy ends up as Apply says. */
  method Shuffle<T(0)>(items: array<T>, c: seq<nat>) returns (out: array<T>)
    requires Choices(c, items.Length)
    ensures fresh(out) && items[..] == old(items[..])
    ensures out[..] == Apply(items[..], c)
    ensures items.Length > 1 ==> out[items.Length - 1] == items[c[0]]
  {
    out := Copy(items);
    assert |out[..]| == |items[..]|;
    if out.Length == 0 {
      return;
    }
    ghost var target := Apply(items[..], c);
    var i, answers := out.Length - 1, c;
    assert out[..][..i + 1] == items[..];
    while i > 0
      invariant 0 <= i < out.Length
      invariant items[..] == old(items[..])
      invariant Halfway(out[..], i, answers, target)
    {
      TurnKeepsHalfway(out[..], i, answers, target);
      Swap(out, i, answers[0]);
      i, answers := i - 1, answers[1..];
    }
    HalfwayEnds(out[..], answers, target);
  }
}
