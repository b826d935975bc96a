/**
 The sharded map of utils/Map/concurrentMap/map.go. Every operation on one key is one critical
 section on the shard of that key; here each is a method, and its contract is what it does to
 the one map that the shards stand for.
 */
module ConcurrentMap {
  import opened Prelude
  import opened ShardedValue

  const SHARD_COUNT: nat := 4

  class Shard<K(==), V> {
    var items: map<K, V>

    constructor ()
      ensures items == map[]
    {
      items := map[];
    }
  }

  class ConcurrentMap<K(!new, ==), V> {
    const shards: seq<Shard<K, V>>
    const sharding: K -> nat
    ghost var parts: seq<map<K, V>>

    ghost predicate Valid()
      reads this, shards
    {
      && |shards| == |parts| == SHARD_COUNT
      && (forall i, j :: 0 <= i < j < |shards| ==> shards[i] != shards[j])
      && (forall i :: 0 <= i < |shards| ==> shards[i].items == parts[i])
      && Partitioned(sharding, parts)
    }

    ghost function Contents(): map<K, V>
      reads this
    {
      Union(parts)
    }

    constructor (sharding: K -> nat)
      ensures Valid() && Contents() == map[] && this.sharding == sharding && fresh(shards)
    {
      var made: seq<Shard<K, V>> := [];
      for i := 0 to SHARD_COUNT
        invariant |made| == i && fresh(made)
        invariant forall k :: 0 <= k < i ==> made[k].items == map[]
        invariant forall j, k :: 0 <= j < k < i ==> made[j] != made[k]
      {
        var shard := new Shard<K, V>();
        made := made + [shard];
      }
      shards := made;
      this.sharding := sharding;
      parts := seq(SHARD_COUNT, _ => map[]);
      UnionOfEmpty<K, V>(SHARD_COUNT);
    }

    function Index(k: K): nat
      requires |shards| == SHARD_COUNT
      ensures Index(k) < |shards|
    {
      Home(sharding, SHARD_COUNT, k)
    }

    /** Stores a value in the shard of its key. */
    method Set(k: K, v: V)
      requires Valid()
      modifies this`parts, shards
      ensures Valid() && Contents() == old(Contents())[k := v]
    {
      UnionOfSet(sharding, parts, k, v);
      var shard := shards[Index(k)];
      shard.items := shard.items[k := v];
      parts := parts[Index(k) := shard.items];
    }

    /** Deletes a key from its shard. */
    method Remove(k: K)
      requires Valid()
      modifies this`parts, shards
      ensures Valid() && Contents() == old(Contents()) - {k}
    {
      UnionOfRemove(sharding, parts, k);
      var shard := shards[Index(k)];
      shard.items := shard.items - {k};
      parts := parts[Index(k) := shard.items];
    }

    method Get(k: K) returns (r: Option<V>)
      requires Valid()
      ensures r == if k in Contents() then Some(Contents()[k]) else None
    {
      HomeLookup(sharding, parts, k);
      var shard := shards[Index(k)];
      r := if k in shard.items then Some(shard.items[k]) else None;
    }

    /** The callback sees what the one map holds, and its answer is stored there. */
    method Upsert(k: K, v: V, cb: (Option<V>, V) -> V) returns (res: V)
      requires Valid()
      modifies this`parts, shards
      ensures Valid() && Contents() == old(Contents())[k := res]
      ensures res == cb(if k in old(Contents()) then Some(old(Contents())[k]) else None, v)
    {
      var was := Get(k);
      res := cb(was, v);
      Set(k, res);
    }

    method SetIfAbsent(k: K, v: V) returns (stored: bool)
      requires Valid()
      modifies this`parts, shards
      ensures Valid() && (stored <==> k !in old(Contents()))
      ensures Contents() == if stored then old(Contents())[k := v] else old(Contents())
    {
      var was := Get(k);
      if was.None? {
        Set(k, v);
      }
      stored := was.None?;
    }

    method RemoveCb(k: K, cb: (K, Option<V>) -> bool) returns (remove: bool)
      requires Valid()
      modifies this`parts, shards
      ensures Valid()
      ensures remove == cb(k, if k in old(Contents()) then Some(old(Contents())[k]) else None)
      ensures Contents() == if remove then old(Contents()) - {k} else old(Contents())
    {
      var was := Get(k);
      remove := cb(k, was);
      if remove && was.Some? {
        Remove(k);
      }
    }

    method Pop(k: K) returns (r: Option<V>)
      requires Valid()
      modifies this`parts, shards
      ensures Valid() && Contents() == old(Contents()) - {k}
      ensures r == if k in old(Contents()) then Some(old(Contents())[k]) else None
    {
      r := Get(k);
      Remove(k);
    }

    /** Sets every pair of `data`, in some order. */
    method MSet(data: map<K, V>)
      requires Valid()
      modifies this`parts, shards
      ensures Valid() && Contents() == old(Contents()) + data
    {
      var left := data.Keys;
      while left != {}
        invariant Valid() && left <= data.Keys
        invariant Contents() == old(Contents()) + (data - left)
        decreases |left|
      {
        var k :| k in left;
        assert data - (left - {k}) == (data - left)[k := data[k]];
        Set(k, data[k]);
        left := left - {k};
      }
      assert data - left == data;
    }

    /** With no writer between the shards, the sizes add up to the size of the one map. */
    method Count() returns (count: int)
      requires Valid()
      ensures count == |Contents()|
    {
      PartitionedIsApart(sharding, parts);
      SizesAddUp(parts);
      count := 0;
      for i := 0 to SHARD_COUNT
        invariant count == SizeUpTo(parts, i)
      {
        SizeNext(parts, i);
        count := count + |shards[i].items|;
      }
      assert Sizes(parts)[..SHARD_COUNT] == Sizes(parts);
    }
  }
}
