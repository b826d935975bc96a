/** A map cut into parts by a sharding function, on values. */
module ShardedValue {
  import opened Sums

  /** The part that a key belongs to. */
  function Home<K(!new)>(h: K -> nat, n: nat, k: K): nat
    requires n > 0
    ensures Home(h, n, k) < n
  {
    h(k) % n
  }

  /** Each key lives only in its home part. */
  ghost predicate Partitioned<K(!new), V>(h: K -> nat, ms: seq<map<K, V>>) {
    forall i: nat, k: K :: i < |ms| && k in ms[i] ==> h(k) % |ms| == i
  }

  /** Parts that share no key. */
  ghost predicate Apart<K(!new), V>(ms: seq<map<K, V>>) {
    forall i: nat, j: nat, k: K :: i < |ms| && j < |ms| && k in ms[i] && k in ms[j] ==> i == j
  }

  /** The one map that the parts stand for. */
  function Union<K, V>(ms: seq<map<K, V>>): map<K, V> {
    if ms == [] then map[] else ms[0] + Union(ms[1..])
  }

  lemma {:induction false} UnionOfEmpty<K, V>(n: nat)
    ensures Union<K, V>(seq(n, _ => map[])) == map[]
  {
    var ms: seq<map<K, V>> := seq(n, _ => map[]);
    if n > 0 {
      UnionOfEmpty<K, V>(n - 1);
      assert ms[1..] == seq(n - 1, _ => map[]);
    }
  }

  lemma PartitionedIsApart<K(!new), V>(h: K -> nat, ms: seq<map<K, V>>)
    requires Partitioned(h, ms)
    ensures Apart(ms)
  {
    forall i: nat, j: nat, k: K | i < |ms| && j < |ms| && k in ms[i] && k in ms[j] ensures i == j {
      assert h(k) % |ms| == i;
      assert h(k) % |ms| == j;
    }
  }

  lemma TailIsApart<K(!new), V>(ms: seq<map<K, V>>)
    requires ms != [] && Apart(ms)
    ensures Apart(ms[1..])
  {
    forall i: nat, j: nat, k: K | i < |ms[1..]| && j < |ms[1..]| && k in ms[1..][i] && k in ms[1..][j] ensures i == j {
      assert k in ms[i + 1] && k in ms[j + 1];
    }
  }

  /** The union has no key that no part has. */
  lemma {:induction false} UnionHasOnly<K(!new), V>(ms: seq<map<K, V>>, k: K)
    requires k in Union(ms)
    ensures exists i: nat :: i < |ms| && k in ms[i]
  {
    if k in ms[0] {
    } else {
      UnionHasOnly(ms[1..], k);
      var i: nat :| i < |ms[1..]| && k in ms[1..][i];
      assert k in ms[i + 1];
    }
  }

  lemma HeadIsApart<K(!new), V>(ms: seq<map<K, V>>, k: K)
    requires ms != [] && Apart(ms) && k in ms[0]
    ensures k !in Union(ms[1..])
  {
    forall j: nat | j < |ms[1..]| ensures k !in ms[1..][j] {
      assert ms[1..][j] == ms[j + 1];
    }
    if k in Union(ms[1..]) {
      UnionHasOnly(ms[1..], k);
    }
  }

  /** What a part says about a key is what the union says. */
  lemma {:induction false} UnionHas<K(!new), V>(ms: seq<map<K, V>>, i: nat, k: K)
    requires Apart(ms) && i < |ms| && k in ms[i]
    ensures k in Union(ms) && Union(ms)[k] == ms[i][k]
  {
    TailIsApart(ms);
    if i == 0 {
      HeadIsApart(ms, k);
    } else {
      UnionHas(ms[1..], i - 1, k);
    }
  }

  /** Looking a key up in its home part is looking it up in the union. */
  lemma HomeLookup<K(!new), V>(h: K -> nat, ms: seq<map<K, V>>, k: K)
    requires ms != [] && Partitioned(h, ms)
    ensures var i := Home(h, |ms|, k); (k in ms[i] <==> k in Union(ms)) && (k in ms[i] ==> ms[i][k] == Union(ms)[k])
  {
    PartitionedIsApart(h, ms);
    if k in Union(ms) {
      UnionHasOnly(ms, k);
    }
    if k in ms[Home(h, |ms|, k)] {
      UnionHas(ms, Home(h, |ms|, k), k);
    }
  }

  /** Two partitioned families agree at every key but `k`: so do their unions. */
  lemma UnionElsewhere<K(!new), V>(h: K -> nat, ms: seq<map<K, V>>, ns: seq<map<K, V>>, k: K)
    requires ms != [] && |ns| == |ms| && Partitioned(h, ms) && Partitioned(h, ns)
    requires forall i: nat, d: K :: i < |ms| && d != k ==>
      (d in ms[i] <==> d in ns[i]) && (d in ms[i] ==> ms[i][d] == ns[i][d])
    ensures Union(ms) - {k} == Union(ns) - {k}
  {
    var a, b := Union(ms) - {k}, Union(ns) - {k};
    forall d: K | d != k ensures (d in a <==> d in b) && (d in a ==> a[d] == b[d]) {
      HomeLookup(h, ms, d);
      HomeLookup(h, ns, d);
    }
  }

  /** Setting a key in its home part sets it in the union. */
  lemma UnionOfSet<K(!new), V>(h: K -> nat, ms: seq<map<K, V>>, k: K, v: V)
    requires ms != [] && Partitioned(h, ms)
    ensures var i := Home(h, |ms|, k); var ns := ms[i := ms[i][k := v]];
      Partitioned(h, ns) && Union(ns) == Union(ms)[k := v]
  {
    var i := Home(h, |ms|, k);
    var ns := ms[i := ms[i][k := v]];
    UnionElsewhere(h, ms, ns, k);
    HomeLookup(h, ns, k);
    assert Union(ns) == (Union(ns) - {k})[k := v];
    assert Union(ms)[k := v] == (Union(ms) - {k})[k := v];
  }

  /** Removing a key from its home part removes it from the union. */
  lemma UnionOfRemove<K(!new), V>(h: K -> nat, ms: seq<map<K, V>>, k: K)
    requires ms != [] && Partitioned(h, ms)
    ensures var i := Home(h, |ms|, k); var ns := ms[i := ms[i] - {k}];
      Partitioned(h, ns) && Union(ns) == Union(ms) - {k}
  {
    var i := Home(h, |ms|, k);
    var ns := ms[i := ms[i] - {k}];
    UnionElsewhere(h, ms, ns, k);
    HomeLookup(h, ns, k);
    assert Union(ns) == Union(ns) - {k};
  }

  function Sizes<K, V>(ms: seq<map<K, V>>): seq<int> {
    if ms == [] then [] else [|ms[0]|] + Sizes(ms[1..])
  }

  lemma {:induction false} SizeAt<K, V>(ms: seq<map<K, V>>, i: nat)
    requires i < |ms|
    ensures |Sizes(ms)| == |ms| && Sizes(ms)[i] == |ms[i]|
  {
    if |ms| > 1 {
      SizeAt(ms[1..], if i == 0 then 0 else i - 1);
    }
  }

  /** The size of the first `i` parts. */
  ghost function SizeUpTo<K, V>(ms: seq<map<K, V>>, i: nat): int {
    if i <= |Sizes(ms)| then Sum(Sizes(ms)[..i]) else 0
  }

  lemma SizeNext<K, V>(ms: seq<map<K, V>>, i: nat)
    requires i < |ms|
    ensures SizeUpTo(ms, i + 1) == SizeUpTo(ms, i) + |ms[i]|
  {
    SizeAt(ms, i);
    SumOfSnoc(Sizes(ms)[..i], |ms[i]|);
    assert Sizes(ms)[..i + 1] == Sizes(ms)[..i] + [|ms[i]|];
  }

  lemma DisjointSize<K, V>(a: map<K, V>, b: map<K, V>)
    requires a.Keys !! b.Keys
    ensures |a + b| == |a| + |b|
  {
    assert (a + b).Keys == a.Keys + b.Keys;
    assert |a + b| == |(a + b).Keys| && |a| == |a.Keys| && |b| == |b.Keys|;
  }

  /** Adding up the sizes of the parts counts the keys of the union. */
  lemma {:induction false} SizesAddUp<K(!new), V>(ms: seq<map<K, V>>)
    requires Apart(ms)
    ensures |Sizes(ms)| == |ms| && Sum(Sizes(ms)) == |Union(ms)|
  {
    if ms != [] {
      TailIsApart(ms);
      SizesAddUp(ms[1..]);
      forall k | k in ms[0] ensures k !in Union(ms[1..]) {
        HeadIsApart(ms, k);
      }
      DisjointSize(ms[0], Union(ms[1..]));
      assert Sizes(ms)[1..] == Sizes(ms[1..]);
    }
  }
}
