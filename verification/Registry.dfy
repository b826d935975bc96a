/** What one callback of each registry does to its value. */
module RegistryValue {
  const TWO_TO_THE_64: nat := 0x1_0000_0000_0000_0000

  datatype Context = Context(key: string, c: int, cancelled: bool)

  /** Every context there ever was, and for each user the number of the current one. */
  datatype Contexts = Contexts(table: map<string, nat>, all: seq<Context>)

  /** The context that a new connection of `key` gets: the user's, or the next new one. */
  function JoinedAt(v: Contexts, key: string): nat {
    if key in v.table && v.table[key] < |v.all| then v.table[key] else |v.all|
  }

  function Joined(v: Contexts, key: string): Contexts {
    var x := JoinedAt(v, key);
    if x < |v.all| then v.(all := v.all[x := v.all[x].(c := v.all[x].c + 1)])
    else Contexts(v.table[key := x], v.all + [Context(key, 1, false)])
  }

  predicate Current(v: Contexts, x: nat) {
    x < |v.all| && v.all[x].key in v.table && v.table[v.all[x].key] == x
  }

  /** Unsigned decrement, which would wrap around at zero. */
  function Decrement(c: int): int {
    if c == 0 then TWO_TO_THE_64 - 1 else c - 1
  }

  /** A connection gives context `x` back; only the current one of its user is touched. */
  function Left(v: Contexts, x: nat): Contexts {
    if !Current(v, x) then v
    else
      var ctx := v.all[x];
      if Decrement(ctx.c) == 0 then Contexts(v.table - {ctx.key}, v.all[x := ctx.(c := 0, cancelled := true)])
      else v.(all := v.all[x := ctx.(c := Decrement(ctx.c))])
  }

  function TakenOut(v: Contexts, key: string): Contexts {
    v.(table := v.table - {key})
  }

  function Cancelled(v: Contexts, x: nat): Contexts {
    if x < |v.all| then v.(all := v.all[x := v.all[x].(cancelled := true)]) else v
  }

  // ----- counts per ip

  predicate Admits(counts: map<string, int>, ip: string, limit: int) {
    ip !in counts || limit == 0 || counts[ip] < limit
  }

  function Added(counts: map<string, int>, ip: string, limit: int): map<string, int> {
    if !Admits(counts, ip, limit) then counts
    else counts[ip := if ip in counts then counts[ip] + 1 else 1]
  }

  function Reduced(counts: map<string, int>, ip: string): map<string, int> {
    if ip !in counts then counts
    else if counts[ip] - 1 == 0 then counts - {ip}
    else counts[ip := counts[ip] - 1]
  }
}

/**
 The two connection registries of server/manager.go. Each operation is one callback of the
 sharded map, run under the lock of its key, so that a run of the program is a sequence of the
 methods below.
 */
module Registry {
  import V = RegistryValue

  /** A user's shared context; `holders` are the connections that got it and have not given it back. */
  class ConnContext {
    const key: string
    var c: nat
    var cancelled: bool
    ghost var holders: nat
    ghost const id: nat      // its number among all contexts

    constructor (key: string, ghost id: nat)
      ensures this.key == key && this.id == id && c == 1 && !cancelled && holders == 1
    {
      this.key, this.id := key, id;
      c, cancelled, holders := 1, false, 1;
    }
  }

  class UserContexts {
    var userCtxMap: map<string, ConnContext>
    ghost var all: seq<ConnContext>        // every context there ever was, in the order of creation
    ghost var owed: set<ConnContext>       // taken out by a close that is about to cancel them
    ghost var value: V.Contexts

    ghost predicate Known(x: ConnContext)
      reads this
    {
      x.id < |all| && all[x.id] == x
    }

    ghost predicate Registered(x: ConnContext)
      reads this
    {
      x.key in userCtxMap && userCtxMap[x.key] == x
    }

    /** The object holds what the value says. */
    ghost predicate Mirrors(i: nat)
      requires i < |all|
      reads this, all
    {
      var x := all[i];
      x.id == i < |value.all| && value.all[i] == V.Context(x.key, x.c, x.cancelled)
    }

    /** In the map, live and counting its holders; or out of it, and cancelled or about to be. */
    ghost predicate Accounted(x: ConnContext)
      reads this, x
    {
      if Registered(x) then !x.cancelled && x !in owed && x.c == x.holders && x.c >= 1
      else x.cancelled || x in owed
    }

    ghost predicate TableOk()
      reads this
    {
      && value.table.Keys == userCtxMap.Keys
      && (forall k <- userCtxMap :: Known(userCtxMap[k]) && userCtxMap[k].key == k)
      && (forall k <- userCtxMap :: value.table[k] == userCtxMap[k].id)
    }

    ghost predicate Valid()
      reads this, all
    {
      && |value.all| == |all| && TableOk()
      && (forall i: nat :: i < |all| ==> Mirrors(i) && Accounted(all[i]))
    }

    constructor ()
      ensures Valid() && userCtxMap == map[] && all == [] && owed == {}
      ensures value == V.Contexts(map[], [])
    {
      userCtxMap, all, owed := map[], [], {};
      value := V.Contexts(map[], []);
    }

    method JoinCurrent(k: string) returns (x: ConnContext)
      requires Valid() && k in userCtxMap
      modifies this`value, userCtxMap[k]
      ensures Valid() && x == userCtxMap[k] && x.holders == old(userCtxMap[k].holders) + 1
      ensures value == V.Joined(old(value), k) && x.id == V.JoinedAt(old(value), k)
    {
      x := userCtxMap[k];
      assert Mirrors(x.id) && Accounted(x);
      x.c := x.c + 1;
      x.holders := x.holders + 1;
      value := V.Joined(value, k);
    }

    method JoinNew(k: string) returns (x: ConnContext)
      requires Valid() && k !in userCtxMap
      modifies this`userCtxMap, this`all, this`value
      ensures Valid() && fresh(x) && x.key == k && x.holders == 1
      ensures userCtxMap == old(userCtxMap)[k := x] && all == old(all) + [x]
      ensures value == V.Joined(old(value), k) && x.id == V.JoinedAt(old(value), k)
    {
      x := new ConnContext(k, |all|);
      userCtxMap := userCtxMap[k := x];
      all := all + [x];
      value := V.Joined(value, k);
      forall i: nat | i < |all| ensures Mirrors(i) && Accounted(all[i]) {
        assert i < |old(all)| ==> old(Mirrors(i)) && old(Accounted(all[i]));
      }
    }

    /** A connection of user `k` joins the user's context, or a new one if there is none. */
    method Add(k: string) returns (x: ConnContext)
      requires Valid()
      modifies this`userCtxMap, this`all, this`value, if k in userCtxMap then {userCtxMap[k]} else {}
      ensures Valid() && Registered(x) && x.key == k
      ensures value == V.Joined(old(value), k) && x.id == V.JoinedAt(old(value), k)
      ensures if k in old(userCtxMap)
              then x == old(userCtxMap)[k] && x.holders == old(userCtxMap[k].holders) + 1
                   && userCtxMap == old(userCtxMap) && all == old(all)
              else fresh(x) && x.holders == 1 && userCtxMap == old(userCtxMap)[k := x] && all == old(all) + [x]
    {
      if k in userCtxMap {
        x := JoinCurrent(k);
      } else {
        x := JoinNew(k);
      }
    }

    /** What a delete leaves behind: a context without holders is out of the map and cancelled. */
    ghost predicate Released(x: ConnContext)
      reads this, x
    {
      if x.holders == 0 then !Registered(x) && x.cancelled else Registered(x) && !x.cancelled
    }

    method LeaveCurrent(k: string, x: ConnContext)
      requires Valid() && Known(x) && x.key == k && Registered(x)
      modifies this`userCtxMap, this`value, x
      ensures Valid() && Released(x) && x.holders == old(x.holders) - 1 && value == V.Left(old(value), x.id)
      ensures userCtxMap == if x.holders == 0 then old(userCtxMap) - {k} else old(userCtxMap)
    {
      assert Mirrors(x.id) && Accounted(x);
      x.holders := x.holders - 1;
      x.c := x.c - 1;
      value := V.Left(value, x.id);
      if x.c == 0 {
        x.cancelled := true;
        userCtxMap := userCtxMap - {k};
      }
      forall i: nat | i < |all| ensures Mirrors(i) && Accounted(all[i]) {
        assert old(Mirrors(i)) && old(Accounted(all[i]));
      }
    }

    /**
     A holder of `x` gives it back. If `x` is no longer the user's context, nothing changes
     but the number of its holders: a newer context of the same user is left alone.
     */
    method Delete(k: string, x: ConnContext)
      requires Valid() && Known(x) && x.key == k && x.holders >= 1
      modifies this`userCtxMap, this`value, x
      ensures Valid() && x.holders == old(x.holders) - 1
      ensures value == V.Left(old(value), x.id)
      ensures if old(Registered(x)) then Released(x)
              else userCtxMap == old(userCtxMap) && x.c == old(x.c) && x.cancelled == old(x.cancelled)
      ensures userCtxMap == old(userCtxMap) || userCtxMap == old(userCtxMap) - {k}
    {
      assert Mirrors(x.id) && Accounted(x);
      if k in userCtxMap && userCtxMap[k] == x {
        LeaveCurrent(k, x);
      } else {
        x.holders := x.holders - 1;
      }
    }

    /** The first half of a close: takes the context out of the map. */
    method Pop(k: string) returns (x: ConnContext?)
      requires Valid()
      modifies this`userCtxMap, this`owed, this`value
      ensures Valid() && userCtxMap == old(userCtxMap) - {k} && value == V.TakenOut(old(value), k)
      ensures x == if k in old(userCtxMap) then old(userCtxMap)[k] else null
      ensures owed == if x != null then old(owed) + {x} else old(owed)
    {
      assert k !in userCtxMap ==> userCtxMap == userCtxMap - {k};
      value := V.TakenOut(value, k);
      if k in userCtxMap {
        x := userCtxMap[k];
        owed := owed + {x};
      } else {
        x := null;
      }
      userCtxMap := userCtxMap - {k};
    }

    /** The second half: cancels it. */
    method Cancel(x: ConnContext)
      requires Valid() && x in owed && Known(x)
      modifies this`owed, this`value, x`cancelled
      ensures Valid() && x.cancelled && owed == old(owed) - {x} && value == V.Cancelled(old(value), x.id)
    {
      assert Mirrors(x.id) && Accounted(x);
      x.cancelled := true;
      owed := owed - {x};
      value := V.Cancelled(value, x.id);
    }

    method CloseUserConnections(k: string) returns (ok: bool)
      requires Valid()
      modifies this`userCtxMap, this`owed, this`value, if k in userCtxMap then {userCtxMap[k]} else {}
      ensures Valid() && userCtxMap == old(userCtxMap) - {k} && owed == old(owed)
      ensures ok <==> k in old(userCtxMap)
      ensures ok ==> var x := old(userCtxMap)[k];
        x.cancelled && x.c == old(userCtxMap[k].c) && x.holders == old(userCtxMap[k].holders)
      ensures forall i :: 0 <= i < |all| && old(all[i].cancelled) ==> all[i].cancelled
      ensures value == if ok then V.Cancelled(V.TakenOut(old(value), k), old(userCtxMap)[k].id) else old(value)
    {
      assert k in userCtxMap ==> Accounted(all[userCtxMap[k].id]);
      var x := Pop(k);
      if x != null {
        Cancel(x);
        return true;
      }
      assert value.table == old(value).table;
      return false;
    }

    /** With no close halfway, every context is in the map with its holders counted, or gone and cancelled. */
    lemma LiveOrCancelled(x: ConnContext)
      requires Valid() && owed == {} && Known(x)
      ensures Registered(x) <==> !x.cancelled
      ensures Registered(x) ==> x.c == x.holders >= 1
    {
      assert Mirrors(x.id) && Accounted(all[x.id]);
    }
  }

  function Max(a: int, b: int): int {
    if a >= b then a else b
  }

  class IpConnections {
    var ipConnCountMap: map<string, int>
    ghost var admitted: multiset<string>   // by ip, every connection let in
    ghost var released: multiset<string>   // by ip, every one of them that has ended

    /** Connections of `ip` that are let in and have not ended. */
    ghost function Live(ip: string): int
      reads this
    {
      admitted[ip] as int - released[ip] as int
    }

    /** An ip has an entry exactly while it has connections, and the entry counts them. */
    ghost predicate Valid()
      reads this
    {
      && released <= admitted
      && (forall ip :: ip in ipConnCountMap <==> Live(ip) > 0)
      && (forall ip <- ipConnCountMap :: ipConnCountMap[ip] == Live(ip))
    }

    /** No ip has more connections than the limit allows; the first one is always allowed. */
    ghost predicate Within(limit: int)
      reads this
    {
      forall ip <- ipConnCountMap :: ipConnCountMap[ip] <= Max(1, limit)
    }

    constructor ()
      ensures Valid() && ipConnCountMap == map[] && admitted == released == multiset{}
    {
      ipConnCountMap, admitted, released := map[], multiset{}, multiset{};
    }

    /** Counts one more connection of `ip`. */
    method Admit(ip: string)
      requires Valid()
      modifies this`ipConnCountMap, this`admitted
      ensures Valid() && admitted == old(admitted) + multiset{ip}
      ensures ipConnCountMap == old(ipConnCountMap)[ip := old(Live(ip)) + 1]
    {
      if ip in ipConnCountMap {
        ipConnCountMap := ipConnCountMap[ip := ipConnCountMap[ip] + 1];
      } else {
        ipConnCountMap := ipConnCountMap[ip := 1];
      }
      admitted := admitted + multiset{ip};
    }

    /** `limit` is the configured maximum at this moment; zero means none. */
    method AddIpConnCount(ip: string, limit: int) returns (ok: bool, ipCount: int)
      requires Valid()
      modifies this`ipConnCountMap, this`admitted
      ensures Valid() && ipCount == Live(ip) && ipConnCountMap == V.Added(old(ipConnCountMap), ip, limit)
      ensures ok <==> old(Live(ip)) == 0 || limit == 0 || old(Live(ip)) < limit
      ensures admitted == old(admitted) + if ok then multiset{ip} else multiset{}
      ensures limit != 0 && old(Within(limit)) ==> Within(limit)
    {
      if ip in ipConnCountMap && limit != 0 && ipConnCountMap[ip] >= limit {
        return false, ipConnCountMap[ip];
      }
      Admit(ip);
      return true, ipConnCountMap[ip];
    }

    /** A connection that was let in ends; for an ip without connections this does nothing. */
    method ReduceIpConnCount(ip: string)
      requires Valid()
      modifies this`ipConnCountMap, this`released
      ensures Valid() && Live(ip) == Max(0, old(Live(ip)) - 1)
      ensures ipConnCountMap == V.Reduced(old(ipConnCountMap), ip)
      ensures released == old(released) + if old(Live(ip)) > 0 then multiset{ip} else multiset{}
      ensures forall limit :: old(Within(limit)) ==> Within(limit)
    {
      if ip in ipConnCountMap {
        var n := ipConnCountMap[ip] - 1;
        ipConnCountMap := if n == 0 then ipConnCountMap - {ip} else ipConnCountMap[ip := n];
        released := released + multiset{ip};
      }
    }
  }
}
