/**
 Counting the map of utils/Map/concurrentMap/map.go while others write it: the sizes of the shards
 are read one after the other, each under its own lock, and writers may come in between.
 */
module CountRuns {
  import opened Prelude
  import opened ShardedValue
  import opened Sums

  datatype State<K(==), V> = State(
    parts: seq<map<K, V>>,
    next: nat,               // the shard that is read next
    count: int,
    came: nat,               // keys that were new to a shard when it had been read already
    gone: nat)               // keys that left such a shard

  datatype Action<K, V> = Set(k: K, v: V) | Remove(k: K) | ReadNext

  function Init<K(==), V>(parts: seq<map<K, V>>): State<K, V> {
    State(parts, 0, 0, 0, 0)
  }

  /** A writer replaces shard `i` by `m`, which has at most one key more or less. */
  function Write<K(==), V>(s: State<K, V>, i: nat, m: map<K, V>): State<K, V>
    requires i < |s.parts|
  {
    s.(parts := s.parts[i := m],
       came := s.came + (if i < s.next && |m| > |s.parts[i]| then 1 else 0),
       gone := s.gone + (if i < s.next && |m| < |s.parts[i]| then 1 else 0))
  }

  function Do<K(==, !new), V>(h: K -> nat, s: State<K, V>, a: Action<K, V>): Option<State<K, V>> {
    if s.parts == [] then None
    else match a
      case Set(k, v) => var i := Home(h, |s.parts|, k); Some(Write(s, i, s.parts[i][k := v]))
      case Remove(k) => var i := Home(h, |s.parts|, k); Some(Write(s, i, s.parts[i] - {k}))
      case ReadNext =>
        if s.next >= |s.parts| then None
        else Some(s.(next := s.next + 1, count := s.count + |s.parts[s.next]|))
  }

  function Exec<K(==, !new), V>(h: K -> nat, s: State<K, V>, run: seq<Action<K, V>>): Option<State<K, V>>
    decreases |run|
  {
    if run == [] then Some(s)
    else match Do(h, s, run[0]) case None => None case Some(s') => Exec(h, s', run[1..])
  }

  /** What was counted is what the shards read so far hold now, but for what came and went behind the reader. */
  ghost predicate Inv<K(!new), V>(h: K -> nat, s: State<K, V>) {
    && Partitioned(h, s.parts) && s.next <= |s.parts|
    && s.count == SizeUpTo(s.parts, s.next) + s.gone - s.came
  }

  lemma SetSize<K, V>(m: map<K, V>, k: K, v: V)
    ensures |m[k := v]| == |m| + if k in m then 0 else 1
  {
    assert m[k := v].Keys == m.Keys + {k};
    assert |m[k := v]| == |m[k := v].Keys| && |m| == |m.Keys|;
  }

  lemma RemoveSize<K, V>(m: map<K, V>, k: K)
    ensures |m - {k}| == |m| - if k in m then 1 else 0
  {
    assert (m - {k}).Keys == m.Keys - {k};
    assert |m - {k}| == |(m - {k}).Keys| && |m| == |m.Keys|;
  }

  lemma {:induction false} SizesOfUpdate<K, V>(ms: seq<map<K, V>>, i: nat, m: map<K, V>)
    requires i < |ms|
    ensures |Sizes(ms)| == |ms| && Sizes(ms[i := m]) == Sizes(ms)[i := |m|] && Sizes(ms)[i] == |ms[i]|
  {
    SizeAt(ms, i);
    if i == 0 {
      assert ms[i := m][1..] == ms[1..];
      assert Sizes(ms[i := m]) == [|m|] + Sizes(ms)[1..];
    } else {
      SizesOfUpdate(ms[1..], i - 1, m);
      assert ms[i := m][1..] == ms[1..][i - 1 := m];
    }
  }

  /** A write counts for the first `n` shards only if it is to one of them. */
  lemma SizeUpToOfUpdate<K, V>(ms: seq<map<K, V>>, i: nat, m: map<K, V>, n: nat)
    requires i < |ms| && n <= |ms|
    ensures SizeUpTo(ms[i := m], n) == SizeUpTo(ms, n) + if i < n then |m| - |ms[i]| else 0
  {
    SizesOfUpdate(ms, i, m);
    if i < n {
      SumOfUpdate(Sizes(ms)[..n], i, |m|);
      assert Sizes(ms[i := m])[..n] == Sizes(ms)[..n][i := |m|];
    } else {
      assert Sizes(ms[i := m])[..n] == Sizes(ms)[..n];
    }
  }

  lemma StepKeepsInv<K(!new), V>(h: K -> nat, s: State<K, V>, a: Action<K, V>)
    requires Inv(h, s) && Do(h, s, a).Some?
    ensures Inv(h, Do(h, s, a).value) && |Do(h, s, a).value.parts| == |s.parts|
  {
    match a
    case Set(k, v) =>
      var i := Home(h, |s.parts|, k);
      UnionOfSet(h, s.parts, k, v);
      SetSize(s.parts[i], k, v);
      SizeUpToOfUpdate(s.parts, i, s.parts[i][k := v], s.next);
    case Remove(k) =>
      var i := Home(h, |s.parts|, k);
      UnionOfRemove(h, s.parts, k);
      RemoveSize(s.parts[i], k);
      SizeUpToOfUpdate(s.parts, i, s.parts[i] - {k}, s.next);
    case ReadNext => SizeNext(s.parts, s.next);
  }

  lemma {:induction false} RunsKeepInv<K(!new), V>(h: K -> nat, s: State<K, V>, run: seq<Action<K, V>>)
    requires Inv(h, s) && Exec(h, s, run).Some?
    ensures Inv(h, Exec(h, s, run).value) && |Exec(h, s, run).value.parts| == |s.parts|
    decreases |run|
  {
    if run != [] {
      StepKeepsInv(h, s, run[0]);
      RunsKeepInv(h, Do(h, s, run[0]).value, run[1..]);
    }
  }

  /**
   In every interleaving with writers: the count is the size of the map at the end, plus the keys
   that left a shard after it was read, minus the keys that came. So it is that size exactly if as
   many came as went behind the reader.
   */
  lemma CountUnderWriters<K(!new), V>(h: K -> nat, parts: seq<map<K, V>>, run: seq<Action<K, V>>)
    requires Partitioned(h, parts) && Exec(h, Init(parts), run).Some?
    requires Exec(h, Init(parts), run).value.next == |parts|
    ensures var s := Exec(h, Init(parts), run).value;
      s.count == |Union(s.parts)| + s.gone - s.came && (s.count == |Union(s.parts)| <==> s.came == s.gone)
  {
    RunsKeepInv(h, Init(parts), run);
    var s := Exec(h, Init(parts), run).value;
    PartitionedIsApart(h, s.parts);
    SizesAddUp(s.parts);
    assert Sizes(s.parts)[..|s.parts|] == Sizes(s.parts);
  }

  // ----- writers of one kind

  predicate OnlySets<K, V>(run: seq<Action<K, V>>) {
    forall i :: 0 <= i < |run| ==> !run[i].Remove?
  }

  predicate OnlyRemovals<K, V>(run: seq<Action<K, V>>) {
    forall i :: 0 <= i < |run| ==> !run[i].Set?
  }

  /** What the count comes to if nobody writes any more. */
  ghost function Reach<K, V>(s: State<K, V>): int {
    s.count + SizeUpTo(s.parts, |s.parts|) - SizeUpTo(s.parts, s.next)
  }

  /** The sizes of all parts add up to the size of the map. */
  lemma WholeSize<K(!new), V>(h: K -> nat, ms: seq<map<K, V>>)
    requires Partitioned(h, ms)
    ensures SizeUpTo(ms, |ms|) == |Union(ms)|
  {
    PartitionedIsApart(h, ms);
    SizesAddUp(ms);
    assert Sizes(ms)[..|ms|] == Sizes(ms);
  }

  /** A set adds at most one key, a removal takes at most one away, and both count only ahead of the reader. */
  lemma StepMovesReach<K(!new), V>(h: K -> nat, s: State<K, V>, a: Action<K, V>)
    requires Inv(h, s) && Do(h, s, a).Some?
    ensures var s' := Do(h, s, a).value;
      && (!a.Remove? ==> Reach(s) <= Reach(s') && s'.gone == s.gone)
      && (!a.Set? ==> Reach(s') <= Reach(s) && s'.came == s.came)
  {
    match a
    case Set(k, v) =>
      var i := Home(h, |s.parts|, k);
      SetSize(s.parts[i], k, v);
      SizeUpToOfUpdate(s.parts, i, s.parts[i][k := v], s.next);
      SizeUpToOfUpdate(s.parts, i, s.parts[i][k := v], |s.parts|);
    case Remove(k) =>
      var i := Home(h, |s.parts|, k);
      RemoveSize(s.parts[i], k);
      SizeUpToOfUpdate(s.parts, i, s.parts[i] - {k}, s.next);
      SizeUpToOfUpdate(s.parts, i, s.parts[i] - {k}, |s.parts|);
    case ReadNext => SizeNext(s.parts, s.next);
  }

  lemma {:induction false} RunsMoveReach<K(!new), V>(h: K -> nat, s: State<K, V>, run: seq<Action<K, V>>)
    requires Inv(h, s) && Exec(h, s, run).Some?
    ensures var s' := Exec(h, s, run).value;
      && (OnlySets(run) ==> Reach(s) <= Reach(s') && s'.gone == s.gone)
      && (OnlyRemovals(run) ==> Reach(s') <= Reach(s) && s'.came == s.came)
    decreases |run|
  {
    if run != [] {
      StepKeepsInv(h, s, run[0]);
      StepMovesReach(h, s, run[0]);
      RunsMoveReach(h, Do(h, s, run[0]).value, run[1..]);
    }
  }

  /**
   With only inserts, or only removals, in between, the count lies between the sizes of the map
   before and after; and it is the size after exactly if none came to, or left, a shard already
   read.
   */
  lemma CountBetween<K(!new), V>(h: K -> nat, parts: seq<map<K, V>>, run: seq<Action<K, V>>)
    requires Partitioned(h, parts) && Exec(h, Init(parts), run).Some?
    requires Exec(h, Init(parts), run).value.next == |parts|
    ensures var s := Exec(h, Init(parts), run).value;
      && (OnlySets(run) ==> |Union(parts)| <= s.count <= |Union(s.parts)|)
      && (OnlySets(run) ==> (s.count == |Union(s.parts)| <==> s.came == 0))
      && (OnlyRemovals(run) ==> |Union(s.parts)| <= s.count <= |Union(parts)|)
      && (OnlyRemovals(run) ==> (s.count == |Union(s.parts)| <==> s.gone == 0))
  {
    CountUnderWriters(h, parts, run);
    RunsKeepInv(h, Init(parts), run);
    RunsMoveReach(h, Init(parts), run);
    WholeSize(h, parts);
    WholeSize(h, Exec(h, Init(parts), run).value.parts);
  }

  // ----- a count that the map never had

  /** The sizes of the map in the states of a run. */
  ghost function History<K(!new), V>(h: K -> nat, s: State<K, V>, run: seq<Action<K, V>>): seq<nat>
    decreases |run|
  {
    [|Union(s.parts)|] +
    if run == [] || Do(h, s, run[0]).None? then [] else History(h, Do(h, s, run[0]).value, run[1..])
  }

  ghost predicate NeverAbove(sizes: seq<nat>, n: nat) {
    forall i :: 0 <= i < |sizes| ==> sizes[i] <= n
  }

  lemma OneMore(x: nat, sizes: seq<nat>, n: nat)
    ensures NeverAbove([x] + sizes, n) <==> x <= n && NeverAbove(sizes, n)
  {
    assert forall i :: 0 <= i < |sizes| ==> sizes[i] == ([x] + sizes)[i + 1];
    assert ([x] + sizes)[0] == x;
  }

  /** One more step at the beginning of a run. */
  lemma Prepend<K(!new), V>(h: K -> nat, s: State<K, V>, a: Action<K, V>, rest: seq<Action<K, V>>, n: nat)
    requires Do(h, s, a).Some?
    ensures Exec(h, s, [a] + rest) == Exec(h, Do(h, s, a).value, rest)
    ensures NeverAbove(History(h, s, [a] + rest), n) <==>
            |Union(s.parts)| <= n && NeverAbove(History(h, Do(h, s, a).value, rest), n)
  {
    assert ([a] + rest)[1..] == rest;
    OneMore(|Union(s.parts)|, History(h, Do(h, s, a).value, rest), n);
  }

  /** The reader is through, and the shards are as they were. */
  ghost predicate ReadOut<K, V>(s: State<K, V>, s': State<K, V>) {
    s'.parts == s.parts && s'.next == |s.parts| && s'.came == s.came && s'.gone == s.gone
  }

  lemma ReadsOne<K(!new), V>(h: K -> nat, s: State<K, V>) returns (s': State<K, V>)
    requires s.next < |s.parts|
    ensures Do(h, s, ReadNext) == Some(s') && s'.next == s.next + 1
    ensures s'.parts == s.parts && s'.came == s.came && s'.gone == s.gone
  {
    s' := s.(next := s.next + 1, count := s.count + |s.parts[s.next]|);
  }

  /** Reading what is left with nobody in between. */
  lemma {:induction false} ReadsOn<K(!new), V>(h: K -> nat, s: State<K, V>) returns (run: seq<Action<K, V>>)
    requires s.next <= |s.parts|
    ensures Exec(h, s, run).Some? && ReadOut(s, Exec(h, s, run).value)
    ensures NeverAbove(History(h, s, run), |Union(s.parts)|)
    decreases |s.parts| - s.next
  {
    if s.next == |s.parts| {
      run := [];
    } else {
      var s' := ReadsOne(h, s);
      var rest := ReadsOn(h, s');
      Prepend(h, s, ReadNext, rest, |Union(s.parts)|);
      run := [ReadNext] + rest;
    }
  }

  /** Key `a` leaves a shard that has been read, key `b` comes to one that has not: one gone, none came. */
  lemma MovesBehind<K(!new), V>(h: K -> nat, s: State<K, V>, a: K, b: K, v: V)
    returns (s1: State<K, V>, s2: State<K, V>)
    requires Partitioned(h, s.parts) && s.parts != [] && s.came == s.gone == 0
    requires Home(h, |s.parts|, a) < s.next <= Home(h, |s.parts|, b)
    requires a in s.parts[Home(h, |s.parts|, a)] && b !in s.parts[Home(h, |s.parts|, b)]
    ensures Do(h, s, Remove(a)) == Some(s1) && Do(h, s1, Set(b, v)) == Some(s2)
    ensures |Union(s1.parts)| == |Union(s.parts)| - 1 && |Union(s2.parts)| == |Union(s.parts)|
    ensures |s2.parts| == |s.parts| && s2.next == s.next && s2.gone == 1 && s2.came == 0
  {
    s1 := Do(h, s, Remove(a)).value;
    HomeLookup(h, s.parts, a);
    UnionOfRemove(h, s.parts, a);
    RemoveSize(Union(s.parts), a);
    RemoveSize(s.parts[Home(h, |s.parts|, a)], a);
    s2 := Do(h, s1, Set(b, v)).value;
    HomeLookup(h, s.parts, b);
    UnionOfSet(h, s1.parts, b, v);
    SetSize(Union(s1.parts), b, v);
  }

  /**
   Whatever the map holds: if a key of the first shard is removed right after that was read, and a
   new key is then set in another shard, the count is one more than the map ever has.
   */
  lemma PhantomCount<K(!new), V>(h: K -> nat, parts: seq<map<K, V>>, a: K, b: K, v: V)
    returns (run: seq<Action<K, V>>)
    requires Partitioned(h, parts) && parts != [] && Home(h, |parts|, a) == 0 < Home(h, |parts|, b)
    requires a in parts[0] && b !in parts[Home(h, |parts|, b)]
    ensures Exec(h, Init(parts), run).Some? && Exec(h, Init(parts), run).value.next == |parts|
    ensures Exec(h, Init(parts), run).value.count == |Union(parts)| + 1
    ensures NeverAbove(History(h, Init(parts), run), |Union(parts)|)
  {
    var n, s0 := |Union(parts)|, Init(parts);
    var s1 := ReadsOne(h, s0);
    var s2, s3 := MovesBehind(h, s1, a, b, v);
    run := ReadsOn(h, s3);
    Prepend(h, s2, Set(b, v), run, n);
    run := [Set(b, v)] + run;
    Prepend(h, s1, Remove(a), run, n);
    run := [Remove(a)] + run;
    Prepend(h, s0, ReadNext, run, n);
    run := [ReadNext] + run;
    CountUnderWriters(h, parts, run);
  }

  // ----- what the writers do

  /** The one map after the writes of a run. */
  function Written<K, V>(m: map<K, V>, run: seq<Action<K, V>>): map<K, V>
    decreases |run|
  {
    if run == [] then m
    else Written(match run[0] case Set(k, v) => m[k := v] case Remove(k) => m - {k} case ReadNext => m, run[1..])
  }

  lemma WriteTakesEffect<K(!new), V>(h: K -> nat, s: State<K, V>, a: Action<K, V>)
    requires Partitioned(h, s.parts) && Do(h, s, a).Some?
    ensures Union(Do(h, s, a).value.parts) == Written(Union(s.parts), [a])
  {
    assert [a][1..] == [];
    if a.Set? {
      UnionOfSet(h, s.parts, a.k, a.v);
    } else if a.Remove? {
      UnionOfRemove(h, s.parts, a.k);
    }
  }

  /** In every interleaving the writes take effect as on one map, wherever the reader is. */
  lemma {:induction false} WritesTakeEffect<K(!new), V>(h: K -> nat, s: State<K, V>, run: seq<Action<K, V>>)
    requires Inv(h, s) && Exec(h, s, run).Some?
    ensures Union(Exec(h, s, run).value.parts) == Written(Union(s.parts), run)
    decreases |run|
  {
    if run != [] {
      var a := run[0];
      WriteTakesEffect(h, s, a);
      assert [a][1..] == [];
      StepKeepsInv(h, s, a);
      WritesTakeEffect(h, Do(h, s, a).value, run[1..]);
    }
  }

  /** Nobody waits: a writer can always write, and the reader can read on until it has read all shards. */
  lemma NobodyWaits<K(!new), V>(h: K -> nat, s: State<K, V>, k: K, v: V)
    requires s.parts != []
    ensures Do(h, s, Set(k, v)).Some? && Do(h, s, Remove(k)).Some?
    ensures Do(h, s, ReadNext).Some? <==> s.next < |s.parts|
  {
  }
}
