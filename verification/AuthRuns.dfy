/**
 Many static IPv6 logins of server/auth.go at once, while the event handlers of
 server/rabbitmq_consume.go write the store and time passes. A login is up to three steps: it
 asks the cache, on a miss it fetches from the store, and an acceptable record it then puts into
 the cache. Anything may happen in between.
 */
module AuthRuns {
  import opened Prelude
  import opened AuthCache

  /** The store as it was from some moment on. */
  datatype Moment = Moment(time: real, store: Store)

  datatype Attempt =
    | Fetching(user: string, password: string)      // missed the cache, about to ask the store
    | Remembering(user: string, password: string, info: Info, at: nat)
                                                    // fetched at moment `at`, about to fill the cache
    | Finished(user: string, password: string, verdict: Verdict, at: nat, stored: real, when: real)
                                                    // ended at `when` on a record cached at `stored`

  datatype World = World(
    store: Store,
    cache: Cache,
    now: real,
    history: seq<Moment>,        // the store after each event so far
    sources: map<string, nat>,   // for each cached user, the moment the record was fetched at
    attempts: map<nat, Attempt>,
    slowest: real)               // the longest time so far between a fetch and filling the cache

  datatype Event =
    | Begin(i: nat, user: string, password: string)
    | Fetch(i: nat)
    | Remember(i: nat)
    | Set(info: Info)
    | Delete(user: string)
    | Ban(info: Info)
    | Pass(seconds: real)
    | Purge(user: string)        // the cache removes an entry that has expired

  function Start(store: Store, now: real): World {
    World(store, map[], now, [Moment(now, store)], map[], map[], 0.0)
  }

  function StoreAfter(store: Store, e: Event): Store {
    match e
    case Set(info) => store[info.username := info]
    case Delete(user) => store - {user}
    case Ban(info) => store[info.username := BannedForm(info)]
    case _ => store
  }

  function TimeAfter(now: real, e: Event): real {
    if e.Pass? && e.seconds >= 0.0 then now + e.seconds else now
  }

  function Ask(w: World, user: string, password: string): Attempt {
    if password == DYNAMIC then Finished(user, password, Dynamic, 0, w.now, w.now)
    else if Hit(w.cache, user, w.now) && user in w.sources then
      var c := w.cache[user];
      Finished(user, password, Check(Some(c.info), user, password), w.sources[user], c.stored, w.now)
    else Fetching(user, password)
  }

  function Fetched(w: World, user: string, password: string): Attempt {
    var record := if user in w.store then Some(w.store[user]) else None;
    var verdict := Check(record, user, password);
    if verdict.Accepted? && w.history != [] then Remembering(user, password, w.store[user], |w.history| - 1)
    else Finished(user, password, verdict, if w.history == [] then 0 else |w.history| - 1, w.now, w.now)
  }

  function Longer(a: real, b: real): real {
    if a >= b then a else b
  }

  /** What a login step does to cache and attempts; a step that is not possible does nothing. */
  function LoginStep(w: World, e: Event): World {
    match e
    case Begin(i, user, password) =>
      if i in w.attempts then w else w.(attempts := w.attempts[i := Ask(w, user, password)])
    case Fetch(i) =>
      if i !in w.attempts || !w.attempts[i].Fetching? then w
      else w.(attempts := w.attempts[i := Fetched(w, w.attempts[i].user, w.attempts[i].password)])
    case Remember(i) =>
      if i !in w.attempts || !w.attempts[i].Remembering? || w.attempts[i].at >= |w.history| then w
      else
        var t := w.attempts[i];
        w.(cache := w.cache[t.user := Cached(t.info, w.now)],
           sources := w.sources[t.user := t.at],
           attempts := w.attempts[i := Finished(t.user, t.password, Accepted(t.info.ip), t.at, w.now, w.now)],
           slowest := Longer(w.slowest, w.now - w.history[t.at].time))
    case Purge(user) =>
      if user in w.cache && !Hit(w.cache, user, w.now) then w.(cache := w.cache - {user}) else w
    case _ => w
  }

  /** A batch of events is its single events in order; between them others may take place. */
  function Step(w: World, e: Event): World {
    var w' := LoginStep(w, e);
    var store, now := StoreAfter(w.store, e), TimeAfter(w.now, e);
    w'.(store := store, now := now, history := w.history + [Moment(now, store)])
  }

  function Exec(w: World, run: seq<Event>): World
    decreases |run|
  {
    if run == [] then w else Exec(Step(w, run[0]), run[1..])
  }

  lemma {:induction false} ExecSplits(w: World, a: seq<Event>, b: seq<Event>)
    ensures Exec(w, a + b) == Exec(Exec(w, a), b)
    decreases |a|
  {
    if a == [] {
      assert a + b == b;
    } else {
      ExecSplits(Step(w, a[0]), a[1..], b);
      assert (a + b)[1..] == a[1..] + b;
    }
  }

  lemma ExecOne(w: World, e: Event)
    ensures Exec(w, [e]) == Step(w, e)
  {
    assert [e][1..] == [];
  }

  lemma Extend(w: World, run: seq<Event>, e: Event)
    ensures Exec(w, run + [e]) == Step(Exec(w, run), e)
  {
    ExecSplits(w, run, [e]);
    ExecOne(Exec(w, run), e);
  }

  /** Three steps in a row are the login of one call. */
  lemma UndisturbedLogin(w: World, i: nat, user: string, password: string)
    requires i !in w.attempts && w.history != [] && (user in w.cache ==> user in w.sources)
    ensures var w' := Step(Step(Step(w, Begin(i, user, password)), Fetch(i)), Remember(i));
      && i in w'.attempts && w'.attempts[i].Finished?
      && w'.attempts[i].verdict == Login(w.store, w.cache, user, password, w.now)
      && w'.cache == CacheAfter(w.store, w.cache, user, password, w.now, w.now)
  {
    var w1 := Step(w, Begin(i, user, password));
    var w2 := Step(w1, Fetch(i));
    assert w1.attempts[i] == Ask(w, user, password) && w1.cache == w.cache && w1.store == w.store && w1.now == w.now;
    if w1.attempts[i].Fetching? {
      assert w2.attempts[i] == Fetched(w1, user, password) && w2.cache == w.cache && w2.now == w.now;
    } else {
      assert w2.attempts[i] == w1.attempts[i] && w2.cache == w.cache;
    }
  }

  // ----- what every state keeps

  /** What the store held for `user`. */
  function RecordIn(store: Store, user: string): Option<Info> {
    if user in store then Some(store[user]) else None
  }

  /** A record that lets this login in. */
  predicate Matches(info: Info, user: string, password: string, ip: string) {
    info.username == user && info.password == password && info.ip == ip && ip != "" && !info.banned
  }

  /** Moment `at` is in the past. */
  ghost predicate Past(w: World, at: nat) {
    at < |w.history| && w.history[at].time <= w.now
  }

  /** What was fetched then was at hand at `stored`, no later than the slowest login took. */
  ghost predicate PutThere(w: World, at: nat, stored: real) {
    Past(w, at) && w.history[at].time <= stored <= w.now && stored - w.history[at].time <= w.slowest
  }

  ghost predicate CachedOk(w: World, user: string) {
    user in w.cache && user in w.sources && PutThere(w, w.sources[user], w.cache[user].stored)
    && RecordIn(w.history[w.sources[user]].store, user) == Some(w.cache[user].info)
  }

  ghost predicate AttemptOk(w: World, t: Attempt) {
    match t
    case Fetching(_, password) => password != DYNAMIC
    case Remembering(user, password, info, at) =>
      && Past(w, at) && RecordIn(w.history[at].store, user) == Some(info)
      && Matches(info, user, password, info.ip) && password != DYNAMIC
    case Finished(user, password, verdict, at, stored, when) =>
      if verdict == Dynamic then password == DYNAMIC
      else
        && PutThere(w, at, stored) && VerdictFor(RecordIn(w.history[at].store, user), user, password, verdict)
        && stored <= when <= stored + TTL && when <= w.now
  }

  ghost predicate Inv(w: World) {
    && w.history != [] && w.history[|w.history| - 1] == Moment(w.now, w.store) && w.slowest >= 0.0
    && (forall user <- w.cache :: CachedOk(w, user))
    && (forall i <- w.attempts :: AttemptOk(w, w.attempts[i]))
  }

  /** Later is no worse: history grows, time does not run back, and the slowest login stays on record. */
  ghost predicate Later(w: World, w': World) {
    w.now <= w'.now && w.slowest <= w'.slowest && w.history <= w'.history
  }

  lemma LaterKeepsOk(w: World, w': World)
    requires Inv(w) && Later(w, w')
    ensures forall i <- w.attempts :: AttemptOk(w', w.attempts[i])
    ensures forall user <- w.cache :: PutThere(w', w.sources[user], w.cache[user].stored)
  {
    forall i <- w.attempts ensures AttemptOk(w', w.attempts[i]) {
      assert AttemptOk(w, w.attempts[i]);
    }
    forall user <- w.cache ensures PutThere(w', w.sources[user], w.cache[user].stored) {
      assert CachedOk(w, user);
    }
  }

  lemma BeginKeepsInv(w: World, i: nat, user: string, password: string)
    requires Inv(w)
    ensures Inv(Step(w, Begin(i, user, password)))
  {
    var w' := Step(w, Begin(i, user, password));
    LaterKeepsOk(w, w');
    if user in w.cache && password != DYNAMIC {
      assert CachedOk(w, user);
      CheckIsRight(Some(w.cache[user].info), user, password);
    }
    forall u <- w'.cache ensures CachedOk(w', u) {
      assert CachedOk(w, u);
    }
  }

  lemma FetchKeepsInv(w: World, i: nat)
    requires Inv(w)
    ensures Inv(Step(w, Fetch(i)))
  {
    var w' := Step(w, Fetch(i));
    LaterKeepsOk(w, w');
    if i in w.attempts && w.attempts[i].Fetching? {
      var t := w.attempts[i];
      assert AttemptOk(w, t);
      CheckIsRight(RecordIn(w.store, t.user), t.user, t.password);
    }
    forall u <- w'.cache ensures CachedOk(w', u) {
      assert CachedOk(w, u);
    }
  }

  lemma RememberKeepsInv(w: World, i: nat)
    requires Inv(w)
    ensures Inv(Step(w, Remember(i)))
  {
    var w' := Step(w, Remember(i));
    assert i in w.attempts ==> AttemptOk(w, w.attempts[i]);
    LaterKeepsOk(w, w');
    forall u <- w'.cache ensures CachedOk(w', u) {
      assert u in w.cache ==> CachedOk(w, u);
    }
  }

  lemma OutsideKeepsInv(w: World, e: Event)
    requires Inv(w) && !e.Begin? && !e.Fetch? && !e.Remember?
    ensures Inv(Step(w, e))
  {
    var w' := Step(w, e);
    LaterKeepsOk(w, w');
    forall u <- w'.cache ensures CachedOk(w', u) {
      assert CachedOk(w, u);
    }
  }

  lemma StepKeepsInv(w: World, e: Event)
    requires Inv(w)
    ensures Inv(Step(w, e))
  {
    if e.Begin? {
      BeginKeepsInv(w, e.i, e.user, e.password);
    } else if e.Fetch? {
      FetchKeepsInv(w, e.i);
    } else if e.Remember? {
      RememberKeepsInv(w, e.i);
    } else {
      OutsideKeepsInv(w, e);
    }
  }

  lemma {:induction false} RunsKeepInv(w: World, run: seq<Event>)
    requires Inv(w)
    ensures Inv(Exec(w, run))
    decreases |run|
  {
    if run != [] {
      StepKeepsInv(w, run[0]);
      RunsKeepInv(Step(w, run[0]), run[1..]);
    }
  }

  /**
   In every run: a login that has ended got the verdict that is right for what the store held for
   its user at a moment no longer ago than the thirty seconds of the cache and the slowest login
   together.
   */
  lemma VerdictsAreRight(store: Store, start: real, run: seq<Event>, i: nat)
    ensures var w := Exec(Start(store, start), run);
      i in w.attempts && w.attempts[i].Finished? && w.attempts[i].verdict != Dynamic ==>
        var t := w.attempts[i];
        exists k :: 0 <= k < |w.history|
          && t.when - 30.0 - w.slowest <= w.history[k].time <= t.when
          && VerdictFor(RecordIn(w.history[k].store, t.user), t.user, t.password, t.verdict)
  {
    RunsKeepInv(Start(store, start), run);
    var w := Exec(Start(store, start), run);
    assert i in w.attempts ==> AttemptOk(w, w.attempts[i]);
  }

  /** So an accepted login had a matching record, not banned. */
  lemma AcceptedWasStored(store: Store, start: real, run: seq<Event>, i: nat)
    ensures var w := Exec(Start(store, start), run);
      i in w.attempts && w.attempts[i].Finished? && w.attempts[i].verdict.Accepted? ==>
        var t := w.attempts[i];
        exists k :: 0 <= k < |w.history|
          && t.when - TTL - w.slowest <= w.history[k].time <= t.when
          && t.user in w.history[k].store && Matches(w.history[k].store[t.user], t.user, t.password, t.verdict.ip)
  {
    VerdictsAreRight(store, start, run, i);
  }

  // ----- and a right login gets in

  /** What has ended stays as it ended. */
  lemma {:induction false} EndedStays(w: World, run: seq<Event>, i: nat)
    requires i in w.attempts && w.attempts[i].Finished?
    ensures i in Exec(w, run).attempts && Exec(w, run).attempts[i] == w.attempts[i]
    decreases |run|
  {
    if run != [] {
      EndedStays(Step(w, run[0]), run[1..], i);
    }
  }

  /** A login that has fetched its record keeps it until it puts it into the cache. */
  lemma {:induction false} FetchedStays(w: World, run: seq<Event>, i: nat)
    requires i in w.attempts && w.attempts[i].Remembering? && w.attempts[i].at < |w.history|
    requires forall e <- run :: e != Remember(i)
    ensures i in Exec(w, run).attempts && Exec(w, run).attempts[i] == w.attempts[i]
    ensures |w.history| <= |Exec(w, run).history|
    decreases |run|
  {
    if run != [] {
      assert run[0] in run && forall e <- run[1..] :: e in run;
      FetchedStays(Step(w, run[0]), run[1..], i);
    }
  }

  /**
   Whatever happens in between and afterwards: a login whose fetch finds a record of its user with
   its password, an address and no ban ends with that address once it takes its last step, and the
   cache then holds that record from that moment on.
   */
  lemma RightLoginGetsIn(
    w: World, i: nat, user: string, password: string, ip: string, mid: seq<Event>, after: seq<Event>)
    requires i in w.attempts && w.attempts[i] == Fetching(user, password) && w.history != []
    requires user in w.store && w.store[user] == Info(user, password, ip, false) && ip != ""
    requires forall e <- mid :: e != Remember(i)
    ensures var w2 := Step(Exec(Step(w, Fetch(i)), mid), Remember(i));
      var w3 := Exec(w2, after);
      && user in w2.cache && w2.cache[user] == Cached(Info(user, password, ip, false), w2.now)
      && i in w3.attempts && w3.attempts[i].Finished? && w3.attempts[i].verdict == Accepted(ip)
  {
    var w1 := Step(w, Fetch(i));
    assert w1.attempts[i] == Remembering(user, password, w.store[user], |w.history| - 1);
    FetchedStays(w1, mid, i);
    EndedStays(Step(Exec(w1, mid), Remember(i)), after, i);
  }

  /** A login that the cache answers ends at once, with the verdict for the cached record. */
  lemma HitEndsAtOnce(w: World, i: nat, user: string, password: string, after: seq<Event>)
    requires Inv(w) && i !in w.attempts && password != "elfproxy_dynamic_ipv6"
    requires user in w.cache && w.now <= w.cache[user].stored + 30.0
    ensures var w' := Exec(Step(w, Begin(i, user, password)), after);
      && i in w'.attempts && w'.attempts[i].Finished?
      && VerdictFor(Some(w.cache[user].info), user, password, w'.attempts[i].verdict)
  {
    var w1 := Step(w, Begin(i, user, password));
    assert CachedOk(w, user);
    assert w1.attempts[i] == Ask(w, user, password);
    EndedStays(w1, after, i);
    CheckIsRight(Some(w.cache[user].info), user, password);
  }

  lemma {:induction false} TimeOnlyPasses(w: World, run: seq<Event>)
    ensures w.now <= Exec(w, run).now
    decreases |run|
  {
    if run != [] {
      TimeOnlyPasses(Step(w, run[0]), run[1..]);
    }
  }

  /** A cached record answers for thirty seconds, unless a later one takes its place. */
  lemma {:induction false} RecordLasts(w: World, run: seq<Event>, user: string)
    requires user in w.cache && w.cache[user].stored <= w.now
    requires Exec(w, run).now <= w.cache[user].stored + 30.0
    ensures var cache := Exec(w, run).cache;
      user in cache && (cache[user] == w.cache[user] || w.now <= cache[user].stored <= Exec(w, run).now)
    decreases |run|
  {
    if run != [] {
      var w' := Step(w, run[0]);
      TimeOnlyPasses(w', run[1..]);
      RecordLasts(w', run[1..], user);
    }
  }

  /** What the events of a run leave for `user`: the record of the last one that concerns them. */
  function LastWrite(run: seq<Event>, user: string, before: Option<Info>): Option<Info> {
    if run == [] then before
    else match run[|run| - 1]
      case Set(info) => if info.username == user then Some(info) else LastWrite(run[..|run| - 1], user, before)
      case Ban(info) =>
        if info.username == user then Some(Info(user, info.password, info.ip, true))
        else LastWrite(run[..|run| - 1], user, before)
      case Delete(u) => if u == user then None else LastWrite(run[..|run| - 1], user, before)
      case _ => LastWrite(run[..|run| - 1], user, before)
  }

  /** The store holds for each user what the last event about them wrote; logins do not touch it. */
  lemma {:induction false} StoreHoldsLastWrite(w: World, run: seq<Event>, user: string)
    ensures RecordIn(Exec(w, run).store, user) == LastWrite(run, user, RecordIn(w.store, user))
  {
    if run != [] {
      var most, last := run[..|run| - 1], run[|run| - 1];
      StoreHoldsLastWrite(w, most, user);
      Extend(w, most, last);
      assert most + [last] == run;
    }
  }

  /** No time passes while a login is between fetching and filling the cache. */
  ghost predicate Prompt(w: World, run: seq<Event>)
    decreases |run|
  {
    run != [] ==>
      && (run[0].Pass? ==> forall i <- w.attempts :: !w.attempts[i].Remembering?)
      && Prompt(Step(w, run[0]), run[1..])
  }

  /** Whatever a login still has to remember was fetched just now. */
  ghost predicate JustFetched(w: World) {
    && w.history != [] && w.history[|w.history| - 1].time == w.now && w.slowest == 0.0
    && forall i <- w.attempts :: w.attempts[i].Remembering? ==>
         w.attempts[i].at < |w.history| && w.history[w.attempts[i].at].time == w.now
  }

  lemma StepKeepsJustFetched(w: World, e: Event)
    requires JustFetched(w) && (e.Pass? ==> forall i <- w.attempts :: !w.attempts[i].Remembering?)
    ensures JustFetched(Step(w, e))
  {
  }

  /** With prompt logins the slowest takes no time: an accepted record was stored within the last thirty seconds. */
  lemma {:induction false} PromptLoginsTakeNoTime(w: World, run: seq<Event>)
    requires JustFetched(w) && Prompt(w, run)
    ensures Exec(w, run).slowest == 0.0
    decreases |run|
  {
    if run != [] {
      StepKeepsJustFetched(w, run[0]);
      PromptLoginsTakeNoTime(Step(w, run[0]), run[1..]);
    }
  }

  /**
   In every run of prompt logins: an accepted login had a matching record, not banned, that the
   store held at most thirty seconds earlier.
   */
  lemma PromptAcceptedWasStored(store: Store, start: real, run: seq<Event>, i: nat)
    requires Prompt(Start(store, start), run)
    ensures var w := Exec(Start(store, start), run);
      i in w.attempts && w.attempts[i].Finished? && w.attempts[i].verdict.Accepted? ==>
        var t := w.attempts[i];
        exists k :: 0 <= k < |w.history|
          && t.when - TTL <= w.history[k].time <= t.when
          && t.user in w.history[k].store && Matches(w.history[k].store[t.user], t.user, t.password, t.verdict.ip)
  {
    PromptLoginsTakeNoTime(Start(store, start), run);
    AcceptedWasStored(store, start, run, i);
  }

  // ----- bans

  /** Nothing acceptable is stored for `user`. */
  ghost predicate Out(w: World, user: string) {
    user in w.store ==> w.store[user].banned
  }

  /** No login of `user` is between fetching and filling the cache. */
  ghost predicate Quiet(w: World, user: string) {
    forall i <- w.attempts :: w.attempts[i].Remembering? ==> w.attempts[i].user != user
  }

  ghost predicate Barred(w: World, user: string, since: real) {
    Out(w, user) && Quiet(w, user) && (user in w.cache ==> w.cache[user].stored <= since)
  }

  /** The event does not store an acceptable record for `user`. */
  predicate SetsNot(e: Event, user: string) {
    !(e.Set? && e.info.username == user && !e.info.banned)
  }

  /** The step lets a login of `user` in. */
  ghost predicate LetsIn(w: World, e: Event, user: string) {
    var w' := Step(w, e);
    exists i <- w'.attempts :: w'.attempts[i].user == user && w'.attempts[i].Finished?
      && w'.attempts[i].verdict.Accepted? && (i !in w.attempts || w.attempts[i] != w'.attempts[i])
  }

  lemma StepKeepsBarred(w: World, e: Event, user: string, since: real)
    requires Barred(w, user, since) && SetsNot(e, user)
    ensures Barred(Step(w, e), user, since)
  {
  }

  lemma {:induction false} RunsKeepBarred(w: World, run: seq<Event>, user: string, since: real)
    requires Barred(w, user, since) && forall e <- run :: SetsNot(e, user)
    ensures Barred(Exec(w, run), user, since)
    decreases |run|
  {
    if run != [] {
      assert run[0] in run;
      StepKeepsBarred(w, run[0], user, since);
      RunsKeepBarred(Step(w, run[0]), run[1..], user, since);
    }
  }

  lemma {:induction false} RunsKeepOut(w: World, run: seq<Event>, user: string)
    requires Out(w, user) && forall e <- run :: SetsNot(e, user)
    ensures Out(Exec(w, run), user)
    decreases |run|
  {
    if run != [] {
      assert run[0] in run;
      RunsKeepOut(Step(w, run[0]), run[1..], user);
    }
  }

  lemma BarredIsRefused(w: World, e: Event, user: string, since: real)
    requires Barred(w, user, since) && w.now > since + TTL
    ensures !LetsIn(w, e, user)
  {
  }

  /**
   In every run: from the first moment after a ban at which no login of the user is between
   fetching and filling the cache, more than thirty seconds on no step lets the user in, until a
   set event stores an acceptable record again.
   */
  lemma BanTakesEffect(
    store: Store, start: real, before: seq<Event>, info: Info, mid: seq<Event>, after: seq<Event>, e: Event)
    requires forall x <- mid :: SetsNot(x, info.username)
    requires forall x <- after :: SetsNot(x, info.username)
    requires Quiet(Exec(Start(store, start), before + [Ban(info)] + mid), info.username)
    ensures var quiet := Exec(Start(store, start), before + [Ban(info)] + mid);
      var w := Exec(quiet, after);
      w.now > quiet.now + TTL ==> !LetsIn(w, e, info.username)
  {
    var user := info.username;
    var w0 := Exec(Start(store, start), before);
    var w1 := Step(w0, Ban(info));
    var quiet := Exec(w1, mid);
    ExecSplits(Start(store, start), before, [Ban(info)]);
    ExecSplits(Start(store, start), before + [Ban(info)], mid);
    ExecOne(w0, Ban(info));
    RunsKeepInv(Start(store, start), before + [Ban(info)] + mid);
    RunsKeepOut(w1, mid, user);
    assert user in quiet.cache ==> CachedOk(quiet, user);
    RunsKeepBarred(quiet, after, user, quiet.now);
    var w := Exec(quiet, after);
    if w.now > quiet.now + TTL {
      BarredIsRefused(w, e, user, quiet.now);
    }
  }

  /** A user is let in `delay` seconds after a quiet moment that follows a ban, with no acceptable record set since. */
  ghost predicate LetInAfterBan(
    store: Store, start: real, before: seq<Event>, info: Info, mid: seq<Event>, after: seq<Event>, e: Event,
    delay: real)
  {
    var quiet := Exec(Start(store, start), before + [Ban(info)] + mid);
    var w := Exec(quiet, after);
    && (forall x <- mid :: SetsNot(x, info.username)) && (forall x <- after :: SetsNot(x, info.username))
    && Quiet(quiet, info.username) && w.now == quiet.now + delay && LetsIn(w, e, info.username)
  }

  const PASSWORD: string := "secret"

  function Member(user: string): Info {
    Info(user, PASSWORD, "::1", false)
  }

  /** The state after login 0 of `user` has filled the cache at time zero. */
  lemma LogsIn(user: string) returns (before: seq<Event>)
    ensures var w := Exec(Start(map[user := Member(user)], 0.0), before);
      && w.cache == map[user := Cached(Member(user), 0.0)] && user in w.sources && w.now == 0.0
      && w.attempts.Keys == {0} && !w.attempts[0].Remembering?
  {
    var w0 := Start(map[user := Member(user)], 0.0);
    UndisturbedLogin(w0, 0, user, PASSWORD);
    before := [Begin(0, user, PASSWORD)];
    ExecOne(w0, Begin(0, user, PASSWORD));
    Extend(w0, before, Fetch(0));
    before := before + [Fetch(0)];
    Extend(w0, before, Remember(0));
    before := before + [Remember(0)];
  }

  /** A login that the cache answers. */
  lemma HitLetsIn(w: World, i: nat, user: string)
    requires i !in w.attempts && Hit(w.cache, user, w.now) && user in w.sources && w.cache[user].info == Member(user)
    ensures LetsIn(w, Begin(i, user, PASSWORD), user)
  {
    var w' := Step(w, Begin(i, user, PASSWORD));
    assert w'.attempts[i] == Ask(w, user, PASSWORD);
  }

  lemma LetInUpToThirtySeconds(user: string, delay: real) returns (before: seq<Event>)
    requires 0.0 <= delay <= TTL
    ensures LetInAfterBan(map[user := Member(user)], 0.0, before, Member(user), [], [Pass(delay)],
                          Begin(1, user, PASSWORD), delay)
  {
    var w0 := Start(map[user := Member(user)], 0.0);
    before := LogsIn(user);
    var w1 := Exec(w0, before);
    Extend(w0, before, Ban(Member(user)));
    assert before + [Ban(Member(user))] + [] == before + [Ban(Member(user))];
    var quiet := Step(w1, Ban(Member(user)));
    ExecOne(quiet, Pass(delay));
    HitLetsIn(Step(quiet, Pass(delay)), 1, user);
  }

  /** The exact threshold: a banned user can be let in after a delay if and only if it is at most thirty seconds. */
  lemma BanThreshold(user: string, delay: real)
    requires delay >= 0.0
    ensures (exists store, start, before, info: Info, mid, after, e ::
               (info.username == user && LetInAfterBan(store, start, before, info, mid, after, e, delay)))
            <==> delay <= TTL
  {
    if delay <= TTL {
      var before := LetInUpToThirtySeconds(user, delay);
      assert Member(user).username == user;
    }
    if store, start, before, info: Info, mid, after, e :|
      (info.username == user && LetInAfterBan(store, start, before, info, mid, after, e, delay))
    {
      BanTakesEffect(store, start, before, info, mid, after, e);
    }
  }

  /** Login 0 has fetched the record at time zero and has not put it into the cache yet. */
  lemma IsInFlight(user: string) returns (before: seq<Event>)
    ensures var w := Exec(Start(map[user := Member(user)], 0.0), before);
      && w.now == 0.0 && |w.history| == 3 && w.attempts == map[0 := Remembering(user, PASSWORD, Member(user), 1)]
  {
    var w0 := Start(map[user := Member(user)], 0.0);
    before := [Begin(0, user, PASSWORD)];
    ExecOne(w0, Begin(0, user, PASSWORD));
    Extend(w0, before, Fetch(0));
    before := before + [Fetch(0)];
  }

  /** Login 0 takes `wait` seconds to put its record into the cache. */
  lemma FillsLate(w: World, user: string, wait: real)
    requires |w.history| > 1 && w.attempts == map[0 := Remembering(user, PASSWORD, Member(user), 1)] && wait >= 0.0
    ensures var w' := Step(Step(w, Pass(wait)), Remember(0));
      && w'.now == w.now + wait && 1 !in w'.attempts && user in w'.sources
      && user in w'.cache && w'.cache[user] == Cached(Member(user), w.now + wait)
  {
  }

  lemma TimePasses(w: World, seconds: real)
    requires seconds >= 0.0
    ensures var w' := Step(w, Pass(seconds));
      w'.now == w.now + seconds && w'.attempts == w.attempts && w'.sources == w.sources && w'.cache == w.cache
  {
  }

  /**
   Why the ban waits for a quiet moment: a login in flight at the ban that takes `wait` seconds to
   fill the cache lets the user in for up to thirty seconds more, however long that was.
   */
  lemma SlowLoginOutlivesBan(user: string, wait: real, delay: real) returns (before: seq<Event>, after: seq<Event>)
    requires wait >= 0.0 && 0.0 <= delay <= TTL
    ensures forall x <- after :: SetsNot(x, user)
    ensures var banned := Exec(Start(map[user := Member(user)], 0.0), before + [Ban(Member(user))]);
      var w := Exec(banned, after);
      w.now == banned.now + wait + delay && LetsIn(w, Begin(1, user, PASSWORD), user)
  {
    var w0 := Start(map[user := Member(user)], 0.0);
    before := IsInFlight(user);
    Extend(w0, before, Ban(Member(user)));
    var banned := Exec(w0, before + [Ban(Member(user))]);
    after := [Pass(wait)];
    ExecOne(banned, Pass(wait));
    Extend(banned, after, Remember(0));
    FillsLate(banned, user, wait);
    after := after + [Remember(0)];
    Extend(banned, after, Pass(delay));
    TimePasses(Exec(banned, after), delay);
    after := after + [Pass(delay)];
    HitLetsIn(Exec(banned, after), 1, user);
  }

  // ----- batches

  function Bans(infos: seq<Info>): seq<Event> {
    seq(|infos|, i requires 0 <= i < |infos| => Ban(infos[i]))
  }

  /** A batch of bans does to the store what its single bans do one after the other. */
  lemma {:induction false} BatchIsRun(w: World, infos: seq<Info>)
    ensures Exec(w, Bans(infos)).store == SetAll(w.store, BannedForms(infos))
  {
    if infos != [] {
      var most, last := infos[..|infos| - 1], infos[|infos| - 1];
      BatchIsRun(w, most);
      assert Bans(infos) == Bans(most) + [Ban(last)];
      Extend(w, Bans(most), Ban(last));
      assert BannedForms(infos)[..|infos| - 1] == BannedForms(most);
    }
  }
}
