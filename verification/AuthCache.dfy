/**
 The static IPv6 login of server/auth.go with its cache of thirty seconds, against the store
 that the event handlers of server/rabbitmq_consume.go write. Time is in seconds.
 */
module AuthCache {
  import opened Prelude
  import opened Registry

  const TTL: real := 30.0
  const DYNAMIC: string := "elfproxy_dynamic_ipv6"

  datatype Info = Info(username: string, password: string, ip: string, banned: bool)

  /** A cached record with the time at which it was put there; a hit does not renew it. */
  datatype Cached = Cached(info: Info, stored: real)

  datatype Reason = NoRecord | WrongPassword | NoIp | Banned

  datatype Verdict = Accepted(ip: string) | Refused(why: Reason) | Dynamic

  type Store = map<string, Info>
  type Cache = map<string, Cached>

  /** The cache still answers up to and including the moment of expiry. */
  predicate Hit(cache: Cache, user: string, now: real) {
    user in cache && now <= cache[user].stored + TTL
  }

  /** The record that a login is checked against. */
  function Consulted(store: Store, cache: Cache, user: string, now: real): Option<Info> {
    if Hit(cache, user, now) then Some(cache[user].info)
    else if user in store then Some(store[user])
    else None
  }

  function Check(record: Option<Info>, user: string, password: string): Verdict {
    if record.None? then Refused(NoRecord)
    else if record.value.username != user || record.value.password != password then Refused(WrongPassword)
    else if record.value.ip == "" then Refused(NoIp)
    else if record.value.banned then Refused(Banned)
    else Accepted(record.value.ip)
  }

  function Login(store: Store, cache: Cache, user: string, password: string, now: real): Verdict {
    if password == DYNAMIC then Dynamic else Check(Consulted(store, cache, user, now), user, password)
  }

  /** Only an accepted login that missed the cache is remembered, from the moment it puts the record there. */
  function CacheAfter(store: Store, cache: Cache, user: string, password: string, now: real, later: real): Cache {
    if Login(store, cache, user, password, now).Accepted? && !Hit(cache, user, now) && user in store
    then cache[user := Cached(store[user], later)]
    else cache
  }

  /** The record is of this user, with this password. */
  predicate Right(record: Option<Info>, user: string, password: string) {
    record.Some? && record.value.username == user && record.value.password == password
  }

  /** The verdict is the right one for the record consulted: the first reason to refuse, or the address. */
  ghost predicate VerdictFor(record: Option<Info>, user: string, password: string, v: Verdict) {
    var own := password != "elfproxy_dynamic_ipv6";
    && (v == Dynamic <==> !own)
    && (v == Refused(NoRecord) <==> own && record.None?)
    && (v == Refused(WrongPassword) <==> own && record.Some? && !Right(record, user, password))
    && (v == Refused(NoIp) <==> own && Right(record, user, password) && record.value.ip == "")
    && (v == Refused(Banned) <==>
        own && Right(record, user, password) && record.value.ip != "" && record.value.banned)
    && (forall ip :: v == Accepted(ip) <==>
        own && Right(record, user, password) && record.value.ip == ip && ip != "" && !record.value.banned)
  }

  lemma CheckIsRight(record: Option<Info>, user: string, password: string)
    requires password != DYNAMIC
    ensures VerdictFor(record, user, password, Check(record, user, password))
  {
  }

  function BannedForm(info: Info): Info {
    info.(banned := true)
  }

  // ----- the service and its event handlers

  /** What a batch does to the store, record by record. */
  function SetAll(store: Store, infos: seq<Info>): Store {
    if infos == [] then store
    else var last := infos[|infos| - 1]; SetAll(store, infos[..|infos| - 1])[last.username := last]
  }

  function BannedForms(infos: seq<Info>): seq<Info> {
    seq(|infos|, i requires 0 <= i < |infos| => BannedForm(infos[i]))
  }

  function Names(infos: seq<Info>): set<string> {
    set i | 0 <= i < |infos| :: infos[i].username
  }

  /** `j` is the last place of the batch that names `user`. */
  ghost predicate LastFor(infos: seq<Info>, user: string, j: nat) {
    j < |infos| && infos[j].username == user && forall k :: j < k < |infos| ==> infos[k].username != user
  }

  /** A batch touches no user that it does not name. */
  lemma {:induction false} SetAllSpares(store: Store, infos: seq<Info>, user: string)
    requires forall k :: 0 <= k < |infos| ==> infos[k].username != user
    ensures user in SetAll(store, infos) <==> user in store
    ensures user in store ==> SetAll(store, infos)[user] == store[user]
  {
    if infos != [] {
      SetAllSpares(store, infos[..|infos| - 1], user);
    }
  }

  /** After a batch the last record of each user in it is stored. */
  lemma {:induction false} SetAllStores(store: Store, infos: seq<Info>, user: string, j: nat)
    requires LastFor(infos, user, j)
    ensures user in SetAll(store, infos) && SetAll(store, infos)[user] == infos[j]
  {
    var n := |infos| - 1;
    if j < n {
      SetAllStores(store, infos[..n], user, j);
    }
  }

  lemma {:induction false} NamedHasLast(infos: seq<Info>, user: string) returns (j: nat)
    requires user in Names(infos)
    ensures LastFor(infos, user, j)
  {
    j := |infos| - 1;
    if infos[j].username != user {
      assert user in Names(infos[..j]);
      j := NamedHasLast(infos[..j], user);
    }
  }

  /** A batch of bans leaves every user in it banned. */
  lemma BatchBans(store: Store, infos: seq<Info>, user: string)
    requires user in Names(infos)
    ensures user in SetAll(store, BannedForms(infos)) && SetAll(store, BannedForms(infos))[user].banned
  {
    var j := NamedHasLast(infos, user);
    SetAllStores(store, BannedForms(infos), user, j);
  }

  class Ipv6Service {
    var store: Store
    var cache: Cache
    const users: UserContexts

    constructor (users: UserContexts)
      ensures store == map[] && cache == map[] && this.users == users
    {
      store, cache, this.users := map[], map[], users;
    }

    /** One login that nobody interferes with; the cache is asked at `now` and filled at `later`. */
    method Valid(username: string, password: string, now: real, later: real) returns (verdict: Verdict)
      requires now <= later
      modifies this`cache
      ensures verdict == Login(store, old(cache), username, password, now)
      ensures cache == CacheAfter(store, old(cache), username, password, now, later)
      ensures
        var hit := username in old(cache) && now <= old(cache)[username].stored + 30.0;
        var stored := if username in store then Some(store[username]) else None;
        && VerdictFor(if hit then Some(old(cache)[username].info) else stored, username, password, verdict)
        && cache == if verdict.Accepted? && !hit then old(cache)[username := Cached(stored.value, later)]
                    else old(cache)
    {
      if password == DYNAMIC {
        return Dynamic;
      }
      var authInfo: Option<Info>, isTouch := None, true;
      if username in cache && now <= cache[username].stored + TTL {
        authInfo, isTouch := Some(cache[username].info), false;
      }
      if authInfo.None? {
        if username !in store {
          return Refused(NoRecord);
        }
        authInfo := Some(store[username]);
      }
      var info := authInfo.value;
      if info.username != username || info.password != password {
        return Refused(WrongPassword);
      }
      if info.ip == "" {
        return Refused(NoIp);
      }
      if info.banned {
        return Refused(Banned);
      }
      if isTouch {
        cache := cache[username := Cached(info, later)];
      }
      return Accepted(info.ip);
    }

    method SetUserData(info: Option<Info>) returns (ok: bool)
      modifies this`store
      ensures ok <==> info.Some? && info.value.username != ""
      ensures store == if ok then old(store)[info.value.username := info.value] else old(store)
    {
      if info.None? || info.value.username == "" {
        return false;
      }
      store := store[info.value.username := info.value];
      return true;
    }

    /** Writes all records; unlike the single form, a batch also takes a record without a name. */
    method WriteAll(infos: seq<Info>)
      modifies this`store
      ensures store == SetAll(old(store), infos)
    {
      for i := 0 to |infos|
        invariant store == SetAll(old(store), infos[..i])
      {
        assert infos[..i + 1][..i] == infos[..i];
        store := store[infos[i].username := infos[i]];
      }
      assert infos[..|infos|] == infos;
    }

    method SetUserDataBatch(infos: seq<Info>) returns (ok: bool)
      modifies this`store
      ensures ok <==> infos != []
      ensures store == SetAll(old(store), infos)
    {
      if |infos| <= 0 {
        return false;
      }
      WriteAll(infos);
      return true;
    }

    method DeleteUserData(info: Option<Info>) returns (ok: bool)
      modifies this`store
      ensures ok <==> info.Some? && info.value.username != ""
      ensures store == if ok then old(store) - {info.value.username} else old(store)
    {
      if info.None? || info.value.username == "" {
        return false;
      }
      store := store - {info.value.username};
      return true;
    }

    method DeleteUserDataBatch(infos: seq<Info>) returns (ok: bool)
      modifies this`store
      ensures ok <==> infos != []
      ensures store == old(store) - Names(infos)
      ensures forall i :: 0 <= i < |infos| ==> infos[i].username !in store
    {
      if |infos| <= 0 {
        return false;
      }
      for i := 0 to |infos|
        invariant store == old(store) - Names(infos[..i])
      {
        assert Names(infos[..i + 1]) == Names(infos[..i]) + {infos[i].username};
        store := store - {infos[i].username};
      }
      assert infos[..|infos|] == infos;
      return true;
    }

    /** A ban stores the banned record and cancels the user's connections. */
    method BanUserData(info: Option<Info>) returns (ok: bool)
      requires users.Valid()
      modifies this`store, users`userCtxMap, users`owed, users`value, users.all
      ensures users.Valid() && (ok <==> info.Some? && info.value.username != "")
      ensures store == if ok then old(store)[info.value.username := BannedForm(info.value)] else old(store)
      ensures ok ==> Disconnected(old(users.userCtxMap), info.value.username)
    {
      if info.None? || info.value.username == "" {
        return false;
      }
      store := store[info.value.username := BannedForm(info.value)];
      var _ := users.CloseUserConnections(info.value.username);
      return true;
    }

    /** The user has no context any more, and the one there was is cancelled. */
    ghost predicate Disconnected(before: map<string, ConnContext>, user: string)
      reads users, if user in before then {before[user]} else {}
    {
      user !in users.userCtxMap && (user in before ==> before[user].cancelled)
    }

    /** Of the contexts in `before`, those of `names` are cancelled and none of these users has one now. */
    ghost predicate AllDisconnected(before: map<string, ConnContext>, names: set<string>)
      reads users, before.Values
    {
      && users.userCtxMap == before - names
      && forall user <- before :: users.Known(before[user]) && (user in names ==> before[user].cancelled)
    }

    method DisconnectNext(ghost before: map<string, ConnContext>, ghost names: set<string>, user: string)
      requires users.Valid() && AllDisconnected(before, names)
      modifies users`userCtxMap, users`owed, users`value, users.all
      ensures users.Valid() && AllDisconnected(before, names + {user})
    {
      assert user in users.userCtxMap ==> users.Known(users.userCtxMap[user]);
      ghost var known := users.all;
      var _ := users.CloseUserConnections(user);
      assert before - (names + {user}) == (before - names) - {user};
      forall k <- before ensures users.Known(before[k]) && (k in names + {user} ==> before[k].cancelled) {
        assert known[before[k].id] == before[k];
      }
    }

    method DisconnectAll(infos: seq<Info>)
      requires users.Valid()
      modifies users`userCtxMap, users`owed, users`value, users.all
      ensures users.Valid()
      ensures forall user <- Names(infos) :: Disconnected(old(users.userCtxMap), user)
    {
      ghost var before := users.userCtxMap;
      assert before - Names(infos[..0]) == before;
      for i := 0 to |infos|
        invariant users.Valid() && users.all == old(users.all)
        invariant AllDisconnected(before, Names(infos[..i]))
      {
        assert Names(infos[..i + 1]) == Names(infos[..i]) + {infos[i].username};
        DisconnectNext(before, Names(infos[..i]), infos[i].username);
      }
      assert infos[..|infos|] == infos;
    }

    method BanUserDataBatch(infos: seq<Info>) returns (ok: bool)
      requires users.Valid()
      modifies this`store, users`userCtxMap, users`owed, users`value, users.all
      ensures users.Valid() && (ok <==> infos != [])
      ensures store == SetAll(old(store), BannedForms(infos))
      ensures forall i :: 0 <= i < |infos| ==> infos[i].username in store && store[infos[i].username].banned
      ensures forall i :: 0 <= i < |infos| ==> Disconnected(old(users.userCtxMap), infos[i].username)
    {
      if |infos| <= 0 {
        assert BannedForms(infos) == [];
        return false;
      }
      forall i | 0 <= i < |infos|
        ensures infos[i].username in SetAll(store, BannedForms(infos))
                && SetAll(store, BannedForms(infos))[infos[i].username].banned
      {
        assert infos[i].username in Names(infos);
        BatchBans(store, infos, infos[i].username);
      }
      WriteAll(BannedForms(infos));
      DisconnectAll(infos);
      return true;
    }
  }
}
