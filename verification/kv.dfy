// internal/kv: the sharded in-memory store with lazy expiry.
//
// The reference is one plain map of bindings that never drops an expired
// binding: a key is live while its binding has not expired. The store spreads
// the bindings over shards by hash and drops expired ones lazily (Get) and in
// bulk (Sweep). It must answer as the plain map does.

module KV {
  import opened Common

  type Key = string

  /** A stored value; None is the zero time, a binding without expiry. */
  datatype Entry<V> = Entry(value: V, expiresAt: Option<int>) {
    predicate Expired(now: int) { expiresAt.Some? && expiresAt.value <= now }
  }

  /** What the plain map answers at an instant. */
  function Lookup<V>(m: map<Key, Entry<V>>, k: Key, now: int): Option<V> {
    if k in m && !m[k].Expired(now) then Some(m[k].value) else None
  }

  // ---------- Choosing a shard ----------

  /** Bitwise and of two unsigned words. */
  function And(a: nat, b: nat): nat
    decreases a
  {
    if a == 0 then 0 else (a % 2) * (b % 2) + 2 * And(a / 2, b / 2)
  }

  function Pow2(k: nat): (p: nat)
    ensures p >= 1
  {
    if k == 0 then 1 else 2 * Pow2(k - 1)
  }

  lemma RemainderUnique(a: nat, d: nat, q: nat, r: nat)
    requires d > 0 && a == d * q + r && r < d
    ensures a % d == r
  {
    var x := a / d - q;
    assert d * x == r - a % d by {
      assert a == d * (a / d) + a % d;
      assert d * x == d * (a / d) - d * q;
    }
    MultipleOf(d, x);
  }

  lemma MultipleOf(d: nat, x: int)
    ensures x >= 1 ==> d * x >= d
    ensures x <= -1 ==> d * x <= 0 - d
  {
    if x >= 1 {
      assert d * (x - 1) >= 0;
    } else if x <= -1 {
      assert d * (-x - 1) >= 0;
    }
  }

  lemma HalfOfRemainder(h: nat, p: nat)
    requires p >= 1
    ensures h % (2 * p) == h % 2 + 2 * ((h / 2) % p)
  {
    var q := h / 2;
    var r := h % 2 + 2 * (q % p);
    var t := q / p;
    assert q == p * t + q % p;
    assert h == (2 * p) * t + r by {
      assert h == 2 * q + h % 2;
      assert (2 * p) * t == 2 * (p * t);
    }
    RemainderUnique(h, 2 * p, t, r);
  }

  lemma AndWithOdd(h: nat, m: nat)
    ensures And(h, 2 * m + 1) == h % 2 + 2 * And(h / 2, m)
  {
    assert (2 * m + 1) / 2 == m && (2 * m + 1) % 2 == 1;
  }

  /** Masking with 2^k - 1 is the remainder modulo 2^k. */
  lemma {:induction false} MaskIsRemainder(h: nat, k: nat)
    ensures And(h, Pow2(k) - 1) == h % Pow2(k)
    decreases k
  {
    if k == 0 {
      AndZero(h);
    } else {
      var p := Pow2(k - 1);
      calc {
        And(h, Pow2(k) - 1);
        And(h, 2 * (p - 1) + 1);
        { AndWithOdd(h, p - 1); }
        h % 2 + 2 * And(h / 2, p - 1);
        { MaskIsRemainder(h / 2, k - 1); }
        h % 2 + 2 * ((h / 2) % p);
        { HalfOfRemainder(h, p); }
        h % (2 * p);
      }
    }
  }

  lemma {:induction false} AndZero(h: nat)
    ensures And(h, 0) == 0
  {
    if h != 0 {
      AndZero(h / 2);
    }
  }

  /** The smallest power of two that is at least n. */
  method NextPow2(n: int) returns (p: nat, ghost k: nat)
    ensures p == Pow2(k) && p >= n
    ensures forall j: nat :: Pow2(j) >= n ==> j >= k
  {
    p, k := 1, 0;
    while p < n
      invariant p == Pow2(k)
      invariant forall j: nat :: Pow2(j) >= n ==> j >= k
      decreases n - p
    {
      forall j: nat | Pow2(j) >= n
        ensures j >= k + 1
      {
        assert j >= k;
        assert Pow2(k) < n;
      }
      p := p * 2;
      k := k + 1;
    }
  }

  lemma SixteenIsEnough(k: nat)
    requires Pow2(k) >= 16 && forall j: nat :: Pow2(j) >= 16 ==> j >= k
    ensures Pow2(k) == 16
  {
    assert Pow2(4) == 16 && Pow2(3) == 8 && Pow2(2) == 4 && Pow2(1) == 2;
  }

  // ---------- The store, used by one goroutine at a time ----------

  type Shard<V> = map<Key, Entry<V>>

  ghost function Union<V>(shards: seq<Shard<V>>): Shard<V> {
    if shards == [] then map[] else Union(shards[..|shards| - 1]) + shards[|shards| - 1]
  }

  ghost function TotalSize<V>(shards: seq<Shard<V>>): nat {
    if shards == [] then 0 else TotalSize(shards[..|shards| - 1]) + |shards[|shards| - 1]|
  }

  lemma {:induction false} UnionMembers<V>(shards: seq<Shard<V>>, k: Key)
    ensures k in Union(shards) <==> exists i | 0 <= i < |shards| :: k in shards[i]
  {
    if shards != [] {
      UnionMembers(shards[..|shards| - 1], k);
    }
  }

  /** When no key is in two shards, their sizes add up to the size of the union. */
  lemma {:induction false} UnionSize<V>(shards: seq<Shard<V>>)
    requires forall i, j, k | 0 <= i < j < |shards| && k in shards[i] :: k !in shards[j]
    ensures |Union(shards)| == TotalSize(shards)
  {
    if shards != [] {
      var front, last := shards[..|shards| - 1], shards[|shards| - 1];
      UnionSize(front);
      forall k | k in last
        ensures k !in Union(front)
      {
        UnionMembers(front, k);
      }
      assert (Union(front) + last).Keys == Union(front).Keys + last.Keys;
    }
  }

  class Memory<V> {
    const hash: Key -> nat
    const mask: nat
    var shards: seq<Shard<V>>
    ghost const bits: nat
    ghost var plain: map<Key, Entry<V>>  // the reference
    ghost var clock: int                 // the latest instant seen

    /** The shard index that h & mask computes. */
    function ShardOf(k: Key): nat { And(hash(k), mask) }

    /** The binding held for k, if any. */
    ghost function Held(k: Key): Option<Entry<V>> reads this {
      var i := ShardOf(k);
      if i < |shards| && k in shards[i] then Some(shards[i][k]) else None
    }

    /** The shards hold a faithful remainder of the plain map: the same
        bindings, each in its shard, with only expired ones missing. */
    ghost predicate Valid() reads this {
      && |shards| == Pow2(bits)
      && mask == |shards| - 1
      && (forall k: Key :: ShardOf(k) < |shards|)
      && (forall i, k | 0 <= i < |shards| && k in shards[i] :: ShardOf(k) == i)
      && (forall k | Held(k).Some? :: k in plain && plain[k] == Held(k).value)
      && (forall k | k in plain && Held(k).None? :: plain[k].Expired(clock))
    }

    constructor (hash: Key -> nat, shards: int, now: int)
      ensures Valid() && plain == map[] && clock == now && this.hash == hash
      ensures |this.shards| >= shards && |this.shards| >= 1
      ensures |this.shards| == Pow2(bits) && (shards <= 0 ==> |this.shards| == 16)
      ensures shards > 0 ==> forall j: nat :: Pow2(j) >= shards ==> j >= bits
    {
      var n: int := if shards <= 0 then 16 else shards;
      var p, k := NextPow2(n);
      if shards <= 0 {
        SixteenIsEnough(k);
      }
      this.hash := hash;
      mask := p - 1;
      bits := k;
      this.shards := seq(p, _ => map[]);
      plain := map[];
      clock := now;
      new;
      forall key: Key
        ensures ShardOf(key) < |this.shards|
      {
        MaskIsRemainder(hash(key), k);
      }
    }

    /** The mask selects the shard at hash mod the number of shards. */
    lemma ShardIsHashModShards(k: Key)
      requires Valid()
      ensures ShardOf(k) == hash(k) % |shards|
    {
      MaskIsRemainder(hash(k), bits);
    }

    /** Get answers as the plain map does, and drops nothing but an expired k. */
    method Get(k: Key, now: int) returns (r: Option<V>)
      requires Valid() && clock <= now
      modifies this`shards, this`clock
      ensures Valid() && clock == now
      ensures r == Lookup(plain, k, now)
      ensures forall j | j != k || r.Some? :: Held(j) == old(Held(j))
      ensures r.None? ==> Held(k).None?
    {
      var i := ShardOf(k);
      clock := now;
      assert Held(k).Some? <==> k in shards[i];
      if k !in shards[i] {
        return None;
      }
      var e := shards[i][k];
      if e.Expired(now) {
        shards := shards[i := shards[i] - {k}];
        return None;
      }
      return Some(e.value);
    }

    method Put(k: Key, e: Entry<V>, now: int)
      requires Valid() && clock <= now
      modifies this
      ensures Valid() && clock == now
      ensures plain == old(plain)[k := e]
      ensures Held(k) == Some(e)
      ensures forall j | j != k :: Held(j) == old(Held(j))
    {
      var i := ShardOf(k);
      clock := now;
      plain := plain[k := e];
      shards := shards[i := shards[i][k := e]];
    }

    method Set(k: Key, value: V, now: int)
      requires Valid() && clock <= now
      modifies this
      ensures Valid() && clock == now
      ensures plain == old(plain)[k := Entry(value, None)]
    {
      Put(k, Entry(value, None), now);
    }

    /** A positive time to live binds until now + ttl, any other one for good. */
    method SetWithTTL(k: Key, value: V, ttl: int, now: int)
      requires Valid() && clock <= now
      modifies this
      ensures Valid() && clock == now
      ensures forall t | t >= now :: Lookup(plain, k, t) == if ttl <= 0 || t < now + ttl then Some(value) else None
      ensures forall j, t | j != k :: Lookup(plain, j, t) == Lookup(old(plain), j, t)
    {
      if ttl <= 0 {
        Set(k, value, now);
        return;
      }
      Put(k, Entry(value, Some(now + ttl)), now);
    }

    method Delete(k: Key)
      requires Valid()
      modifies this
      ensures Valid() && clock == old(clock)
      ensures plain == old(plain) - {k} && Held(k).None?
    {
      var i := ShardOf(k);
      plain := plain - {k};
      shards := shards[i := shards[i] - {k}];
    }

    /** Len adds up the shards; that is the number of keys held, which are all
        the live ones and perhaps some expired ones. */
    method Len() returns (n: nat)
      requires Valid()
      ensures n == |Union(shards)|
      ensures forall k :: k in Union(shards) <==> Held(k).Some?
      ensures forall k | Lookup(plain, k, clock).Some? :: k in Union(shards)
    {
      n := 0;
      for i := 0 to |shards|
        invariant n == TotalSize(shards[..i])
      {
        assert shards[..i + 1][..i] == shards[..i];
        n := n + |shards[i]|;
      }
      assert shards[..|shards|] == shards;
      forall i, j, k | 0 <= i < j < |shards| && k in shards[i]
        ensures k !in shards[j]
      {
        assert ShardOf(k) == i;
      }
      UnionSize(shards);
      forall k
        ensures k in Union(shards) <==> Held(k).Some?
      {
        UnionMembers(shards, k);
      }
    }

    /** Sweep leaves exactly the bindings that are live at its instant. */
    method Sweep(now: int)
      requires Valid() && clock <= now
      modifies this`shards, this`clock
      ensures Valid() && clock == now
      ensures forall k ::
        Held(k) == if k in plain && !plain[k].Expired(now) then Some(plain[k]) else None
    {
      clock := now;
      for i := 0 to |shards|
        invariant Valid() && clock == now && |shards| == old(|shards|)
        invariant forall k | ShardOf(k) < i && Held(k).Some? :: !Held(k).value.Expired(now)
      {
        var live := map k | k in shards[i] && !shards[i][k].Expired(now) :: shards[i][k];
        shards := shards[i := live];
      }
    }
  }

  // ---------- The store under concurrent use ----------

  type Thread = nat

  /** A Get or a Sweep between two of its locked sections. */
  datatype Phase<V> =
    | Looked(k: Key, e: Entry<V>, seen: map<Key, Entry<V>>)  // history: the plain map at the read
    | Doomed(k: Key, e: Entry<V>)
    | Sweeping(now: int, shard: nat)

  /** An answer of Get, with the plain map and the instant that justify it. */
  datatype Answer<V> = Answer(k: Key, r: Option<V>, seen: map<Key, Entry<V>>, at: int)

  datatype Store<V> = Store(
    held: map<Key, Entry<V>>,
    plain: map<Key, Entry<V>>,
    clock: int,
    threads: map<Thread, Phase<V>>,
    answers: seq<Answer<V>>)

  datatype Event<V> =
    | Tick(to: int)
    | Bind(k: Key, value: V, ttl: int)
    | Unbind(k: Key)
    | GetRead(t: Thread, k: Key)
    | GetCheck(t: Thread)
    | GetDrop(t: Thread)
    | SweepStart(t: Thread)
    | SweepShard(t: Thread, shardCount: nat)

  ghost predicate Enabled<V>(s: Store<V>, e: Event<V>) {
    match e
    case Tick(to) => s.clock <= to
    case Bind(_, _, _) => true
    case Unbind(_) => true
    case GetRead(t, _) => t !in s.threads
    case GetCheck(t) => t in s.threads && s.threads[t].Looked?
    case GetDrop(t) => t in s.threads && s.threads[t].Doomed?
    case SweepStart(t) => t !in s.threads
    case SweepShard(t, _) => t in s.threads && s.threads[t].Sweeping?
  }

  ghost function Step<V>(shardOf: Key -> nat, s: Store<V>, e: Event<V>): Store<V>
    requires Enabled(s, e)
  {
    match e
    case Tick(to) => s.(clock := to)
    case Bind(k, value, ttl) =>
      var entry := Entry(value, if ttl <= 0 then None else Some(s.clock + ttl));
      s.(held := s.held[k := entry], plain := s.plain[k := entry])
    case Unbind(k) => s.(held := s.held - {k}, plain := s.plain - {k})
    case GetRead(t, k) =>
      if k in s.held then s.(threads := s.threads[t := Looked(k, s.held[k], s.plain)])
      else s.(answers := s.answers + [Answer(k, None, s.plain, s.clock)])
    case GetCheck(t) =>
      var p := s.threads[t];
      if p.e.Expired(s.clock) then
        s.(threads := s.threads[t := Doomed(p.k, p.e)], answers := s.answers + [Answer(p.k, None, p.seen, s.clock)])
      else
        s.(threads := s.threads - {t}, answers := s.answers + [Answer(p.k, Some(p.e.value), p.seen, s.clock)])
    case GetDrop(t) =>
      var p := s.threads[t];
      s.(threads := s.threads - {t},
         held := if p.k in s.held && s.held[p.k].expiresAt == p.e.expiresAt then s.held - {p.k} else s.held)
    case SweepStart(t) => s.(threads := s.threads[t := Sweeping(s.clock, 0)])
    case SweepShard(t, shardCount) =>
      var p := s.threads[t];
      if p.shard >= shardCount then s.(threads := s.threads - {t})
      else
        s.(threads := s.threads[t := Sweeping(p.now, p.shard + 1)],
           held := map k | k in s.held && !(shardOf(k) == p.shard && s.held[k].Expired(p.now)) :: s.held[k])
  }

  ghost predicate Init<V>(s: Store<V>) {
    s.held == s.plain == map[] && s.threads == map[] && s.answers == []
  }

  ghost predicate Next<V(!new)>(shardOf: Key -> nat, s: Store<V>, s': Store<V>) {
    exists e :: Enabled(s, e) && s' == Step(shardOf, s, e)
  }

  /** An answer that the plain map of its read gives too. A hit was live at the
      read and still at the check. */
  ghost predicate Justified<V>(a: Answer<V>) {
    a.r == Lookup(a.seen, a.k, a.at)
  }

  /** The store holds a faithful remainder of the plain map: only expired
      bindings are missing. */
  ghost predicate HeldOk<V>(s: Store<V>) {
    && (forall k | k in s.held :: k in s.plain && s.plain[k] == s.held[k])
    && (forall k | k in s.plain && k !in s.held :: s.plain[k].Expired(s.clock))
  }

  ghost predicate PhaseOk<V>(s: Store<V>, p: Phase<V>) {
    match p
    case Looked(k, e, seen) => k in seen && seen[k] == e
    case Doomed(_, e) => e.Expired(s.clock)
    case Sweeping(now, _) => now <= s.clock
  }

  ghost predicate Inv<V>(s: Store<V>) {
    && HeldOk(s)
    && (forall t | t in s.threads :: PhaseOk(s, s.threads[t]))
    && (forall a | a in s.answers :: Justified(a))
  }

  lemma StepKeepsHeld<V>(shardOf: Key -> nat, s: Store<V>, e: Event<V>)
    requires HeldOk(s) && Enabled(s, e)
    requires e.GetDrop? || e.SweepShard? ==> PhaseOk(s, s.threads[e.t])
    ensures HeldOk(Step(shardOf, s, e))
  {
  }

  lemma StepKeepsPhases<V>(shardOf: Key -> nat, s: Store<V>, e: Event<V>)
    requires HeldOk(s) && Enabled(s, e) && forall t | t in s.threads :: PhaseOk(s, s.threads[t])
    ensures var s' := Step(shardOf, s, e); forall t | t in s'.threads :: PhaseOk(s', s'.threads[t])
  {
    var s' := Step(shardOf, s, e);
    forall t | t in s'.threads
      ensures PhaseOk(s', s'.threads[t])
    {
      assert t in s.threads ==> PhaseOk(s, s.threads[t]);
    }
  }

  lemma StepKeepsAnswers<V>(shardOf: Key -> nat, s: Store<V>, e: Event<V>)
    requires HeldOk(s) && Enabled(s, e) && forall a | a in s.answers :: Justified(a)
    requires e.GetCheck? ==> PhaseOk(s, s.threads[e.t])
    ensures forall a | a in Step(shardOf, s, e).answers :: Justified(a)
  {
  }

  lemma StepKeepsInv<V>(shardOf: Key -> nat, s: Store<V>, e: Event<V>)
    requires Inv(s) && Enabled(s, e)
    ensures Inv(Step(shardOf, s, e))
  {
    StepKeepsHeld(shardOf, s, e);
    StepKeepsPhases(shardOf, s, e);
    StepKeepsAnswers(shardOf, s, e);
  }

  ghost predicate IsRun<V(!new)>(shardOf: Key -> nat, run: seq<Store<V>>) {
    Behavior(s => Init(s), (s, s') => Next(shardOf, s, s'), run)
  }

  lemma RunsKeepInv<V(!new)>(shardOf: Key -> nat, run: seq<Store<V>>)
    requires IsRun(shardOf, run)
    ensures forall i | 0 <= i < |run| :: Inv(run[i])
  {
    var init, next, inv :=
      (s: Store<V>) => Init(s), (s: Store<V>, s': Store<V>) => Next(shardOf, s, s'), (s: Store<V>) => Inv(s);
    forall s, s' | inv(s) && next(s, s')
      ensures inv(s')
    {
      var e :| Enabled(s, e) && s' == Step(shardOf, s, e);
      StepKeepsInv(shardOf, s, e);
    }
    Invariance(init, next, inv, run);
    forall i | 0 <= i < |run|
      ensures Inv(run[i])
    {
      assert inv(run[i]);
    }
  }

  /** Under every interleaving of the steps of Get and Sweep with writers: the
      store and the plain map have the same live bindings in every state, so no
      live binding is ever dropped, and every answer is the plain map's. */
  lemma InterleavedStoreIsFaithful<V(!new)>(shardOf: Key -> nat, run: seq<Store<V>>)
    requires IsRun(shardOf, run)
    ensures forall i, k, now | 0 <= i < |run| && now >= run[i].clock ::
      Lookup(run[i].held, k, now) == Lookup(run[i].plain, k, now)
    ensures forall i, a | 0 <= i < |run| && a in run[i].answers :: Justified(a)
  {
    RunsKeepInv(shardOf, run);
  }

  /** What a writer binds is found until its time to live is over, or for good
      when that is not positive; other keys are found as before. */
  lemma BoundIsFound<V>(shardOf: Key -> nat, s: Store<V>, k: Key, value: V, ttl: int, now: int)
    requires now >= s.clock
    ensures var s' := Step(shardOf, s, Bind(k, value, ttl));
            && Lookup(s'.plain, k, now) == (if ttl <= 0 || now < s.clock + ttl then Some(value) else None)
            && (forall j | j != k :: Lookup(s'.plain, j, now) == Lookup(s.plain, j, now))
            && Lookup(Step(shardOf, s, Event<V>.Unbind(k)).plain, k, now) == None
  {
  }

  /** A Get that has found its binding expired removes it, unless the key has been
      bound to expire otherwise since, and nothing else. */
  lemma DropRemovesExpired<V>(shardOf: Key -> nat, s: Store<V>, t: Thread)
    requires Enabled(s, Event<V>.GetDrop(t))
    ensures var s', k := Step(shardOf, s, Event<V>.GetDrop(t)), s.threads[t].k;
            && t !in s'.threads && s'.plain == s.plain
            && (k in s'.held <==> k in s.held && s.held[k].expiresAt != s.threads[t].e.expiresAt)
            && forall j :: j != k || k in s'.held ==> (j in s'.held <==> j in s.held)
                                                      && (j in s'.held ==> s'.held[j] == s.held[j])
  {
  }

  // ---------- When a concurrent Get answers for the present ----------

  /** Thread t has read a binding and not checked it yet. */
  ghost predicate Reading<V>(s: Store<V>, t: Thread) { t in s.threads && s.threads[t].Looked? }

  /** A Get of k by thread t from its read, in the step after state i, up to
      state j, where its check comes next. */
  ghost predicate GetSpan<V(!new)>(shardOf: Key -> nat, run: seq<Store<V>>, i: nat, j: nat, t: Thread, k: Key) {
    && IsRun(shardOf, run) && i < j < |run|
    && t !in run[i].threads && run[i + 1] == Step(shardOf, run[i], GetRead(t, k))
    && forall x | i < x <= j :: Reading(run[x], t)
  }

  /** What the check of thread t answers. */
  ghost function AnswerOf<V>(shardOf: Key -> nat, s: Store<V>, t: Thread): Answer<V>
    requires Reading(s, t)
  {
    var answers := Step(shardOf, s, Event<V>.GetCheck(t)).answers;
    answers[|answers| - 1]
  }

  lemma {:induction false} ReadIsKept<V(!new)>(
      shardOf: Key -> nat, run: seq<Store<V>>, i: nat, j: nat, t: Thread, k: Key, x: nat)
    requires GetSpan(shardOf, run, i, j, t, k) && i < x <= j
    ensures k in run[i].plain && run[x].threads[t] == Looked(k, run[i].plain[k], run[i].plain)
  {
    if x == i + 1 {
      RunsKeepInv(shardOf, run);
      assert HeldOk(run[i]) && Reading(run[i + 1], t);
    } else {
      ReadIsKept(shardOf, run, i, j, t, k, x - 1);
      var next := (s: Store<V>, s': Store<V>) => Next(shardOf, s, s');
      assert next(run[x - 1], run[x - 1 + 1]);
      assert Reading(run[x], t);
    }
  }

  ghost predicate Live<V>(s: Store<V>, k: Key) { k in s.plain && !s.plain[k].Expired(s.clock) }

  /** A Get answers with the binding it read, unless that has expired by its
      check. So a Get of a key that is live all the time misses exactly when the
      binding it read has expired by then; another one has then replaced it. */
  lemma LiveKeyIsMissedIffItsReadExpires<V(!new)>(
      shardOf: Key -> nat, run: seq<Store<V>>, i: nat, j: nat, t: Thread, k: Key)
    requires GetSpan(shardOf, run, i, j, t, k)
    requires forall x | i <= x <= j :: Live(run[x], k)
    ensures k in run[i].plain && k in run[j].plain
    ensures var read, r := run[i].plain[k], AnswerOf(shardOf, run[j], t).r;
            && (r.None? <==> read.Expired(run[j].clock))
            && (r.Some? ==> r.value == read.value)
            && (read.Expired(run[j].clock) ==> run[j].plain[k] != read)
  {
    ReadIsKept(shardOf, run, i, j, t, k, j);
    assert Live(run[j], k);
  }

  /** A step that does not write k. */
  ghost predicate StepApartFrom<V(!new)>(shardOf: Key -> nat, k: Key, s: Store<V>, s': Store<V>) {
    exists e: Event<V> ::
      Enabled(s, e) && s' == Step(shardOf, s, e) && !(e.Bind? && e.k == k) && !(e.Unbind? && e.k == k)
  }

  lemma {:induction false} KeyIsKept<V(!new)>(shardOf: Key -> nat, run: seq<Store<V>>, i: nat, x: nat, k: Key)
    requires i <= x < |run| && forall y | i <= y < x :: StepApartFrom(shardOf, k, run[y], run[y + 1])
    ensures k in run[x].plain <==> k in run[i].plain
    ensures k in run[i].plain ==> run[x].plain[k] == run[i].plain[k]
    decreases x - i
  {
    if i < x {
      KeyIsKept(shardOf, run, i, x - 1, k);
      assert StepApartFrom(shardOf, k, run[x - 1], run[x - 1 + 1]);
    }
  }

  /** While nobody writes k, a Get of it answers for the instant of its check. */
  lemma UndisturbedGetIsRight<V(!new)>(
      shardOf: Key -> nat, run: seq<Store<V>>, i: nat, j: nat, t: Thread, k: Key)
    requires GetSpan(shardOf, run, i, j, t, k)
    requires forall x | i <= x < j :: StepApartFrom(shardOf, k, run[x], run[x + 1])
    ensures AnswerOf(shardOf, run[j], t).r == Lookup(run[j].plain, k, run[j].clock)
  {
    ReadIsKept(shardOf, run, i, j, t, k, j);
    KeyIsKept(shardOf, run, i, j, k);
  }

  // ---------- What a concurrent Sweep removes ----------

  /** A step that does not write k; the sweep of thread t has count shards. */
  ghost predicate SweepGoesOn<V(!new)>(
      shardOf: Key -> nat, k: Key, t: Thread, count: nat, s: Store<V>, s': Store<V>)
  {
    exists e: Event<V> ::
      && Enabled(s, e) && s' == Step(shardOf, s, e) && !(e.Bind? && e.k == k) && !(e.Unbind? && e.k == k)
      && (e.SweepShard? && e.t == t ==> e.shardCount == count)
  }

  /** Thread t sweeps at this instant; once past the shard of k, a binding of k
      that is still held had not expired then. */
  ghost predicate SweptSoFar<V>(shardOf: Key -> nat, s: Store<V>, t: Thread, k: Key, now: int) {
    && t in s.threads && s.threads[t].Sweeping? && s.threads[t].now == now
    && (s.threads[t].shard > shardOf(k) && k in s.held ==> !s.held[k].Expired(now))
  }

  lemma SweepStepSweeps<V>(shardOf: Key -> nat, s: Store<V>, e: Event<V>, t: Thread, k: Key, count: nat, now: int)
    requires SweptSoFar(shardOf, s, t, k, now) && shardOf(k) < count && Enabled(s, e)
    requires !(e.Bind? && e.k == k) && !(e.Unbind? && e.k == k) && (e.SweepShard? && e.t == t ==> e.shardCount == count)
    ensures var s' := Step(shardOf, s, e);
            if t in s'.threads then SweptSoFar(shardOf, s', t, k, now)
            else k in s'.held ==> !s'.held[k].Expired(now)
  {
  }

  lemma {:induction false} SweptAlong<V(!new)>(
      shardOf: Key -> nat, path: seq<Store<V>>, t: Thread, k: Key, count: nat, now: int, x: nat)
    requires x < |path| && SweptSoFar(shardOf, path[0], t, k, now) && shardOf(k) < count
    requires forall y | 0 <= y < |path| - 1 :: SweepGoesOn(shardOf, k, t, count, path[y], path[y + 1])
    requires forall y | 0 <= y < x :: t in path[y].threads
    ensures if t in path[x].threads then SweptSoFar(shardOf, path[x], t, k, now)
            else k in path[x].held ==> !path[x].held[k].Expired(now)
  {
    if x > 0 {
      SweptAlong(shardOf, path, t, k, count, now, x - 1);
      assert t in path[x - 1].threads;
      assert SweepGoesOn(shardOf, k, t, count, path[x - 1], path[x - 1 + 1]);
      var e: Event<V> :|
        && Enabled(path[x - 1], e) && path[x] == Step(shardOf, path[x - 1], e)
        && !(e.Bind? && e.k == k) && !(e.Unbind? && e.k == k)
        && (e.SweepShard? && e.t == t ==> e.shardCount == count);
      SweepStepSweeps(shardOf, path[x - 1], e, t, k, count, now);
    }
  }

  /** A Sweep beside any other calls: a key that nobody writes meanwhile is not held
      at its end if its binding had expired when the Sweep began. */
  lemma SweptKeyIsGone<V(!new)>(
      shardOf: Key -> nat, s: Store<V>, path: seq<Store<V>>, t: Thread, k: Key, count: nat)
    requires t !in s.threads && path != [] && path[0] == Step(shardOf, s, Event<V>.SweepStart(t))
    requires shardOf(k) < count
    requires forall y | 0 <= y < |path| - 1 :: SweepGoesOn(shardOf, k, t, count, path[y], path[y + 1])
    requires (forall y | 0 <= y < |path| - 1 :: t in path[y].threads) && t !in path[|path| - 1].threads
    ensures k in path[|path| - 1].held ==> !path[|path| - 1].held[k].Expired(s.clock)
  {
    assert SweptSoFar(shardOf, path[0], t, k, s.clock);
    SweptAlong(shardOf, path, t, k, count, s.clock, |path| - 1);
  }

  // ---------- A Get that misses a live key ----------

  /** A binding that expires at 10, and one that replaces it for good long after. */
  ghost function Bound(k: Key, value: int, at: int, clock: int): Store<int> {
    Store(map[k := Entry(value, Some(at))], map[k := Entry(value, Some(at))], clock, map[], [])
  }

  lemma ReadThenReplaced(shardOf: Key -> nat, k: Key)
    ensures var s1, seen := Bound(k, 1, 10, 0), map[0 := Looked(k, Entry(1, Some(10)), Bound(k, 1, 10, 0).plain)];
            && Step(shardOf, s1, Event<int>.GetRead(0, k)) == s1.(threads := seen)
            && Step(shardOf, s1.(threads := seen), Bind(k, 2, 100)) == Bound(k, 2, 100, 0).(threads := seen)
  {
  }

  /** A miss found at the check is not linearizable: here the key is live in
      every state, and yet Get answers that it is absent, because the binding
      it read expired after a new one had replaced it. */
  lemma ReplacedBindingCanMiss(shardOf: Key -> nat, k: Key) returns (run: seq<Store<int>>)
    ensures IsRun(shardOf, run)
    ensures var s := run[|run| - 1]; |s.answers| == 1 && s.answers[0].k == k && s.answers[0].r == None
    ensures forall i | 1 <= i < |run| :: Live(run[i], k)
  {
    var events: seq<Event<int>> := [Bind(k, 1, 10), GetRead(0, k), Bind(k, 2, 100), Tick(20), GetCheck(0)];
    var s0 := Store(map[], map[], 0, map[], []);
    var s1, s3 := Bound(k, 1, 10, 0), Bound(k, 2, 100, 0);
    var seen := map[0 := Looked(k, Entry(1, Some(10)), s1.plain)];
    var s4 := Bound(k, 2, 100, 20).(threads := seen);
    run := [s0, s1, s1.(threads := seen), s3.(threads := seen), s4, Step(shardOf, s4, events[4])];
    ReadThenReplaced(shardOf, k);
    forall i | 0 <= i < 5
      ensures Next(shardOf, run[i], run[i + 1])
    {
      assert Enabled(run[i], events[i]) && run[i + 1] == Step(shardOf, run[i], events[i]);
    }
  }
}
