/**
 Connections and closers using the registries of server/manager.go at the same time. A
 connection joins its user's context, and later leaves it; a closer first takes a context out of
 the map and then cancels it, and others may act in between.
 */
module RegistryRuns {
  import opened Prelude
  import opened Registry
  import V = RegistryValue

  datatype Conn = In(x: nat) | Gone

  datatype Closer = Popped(x: nat) | Finished

  datatype State = State(reg: V.Contexts, conns: map<nat, Conn>, closers: map<nat, Closer>)

  datatype Action =
    | Join(i: nat, key: string)
    | Leave(i: nat)
    | Pop(j: nat, key: string)
    | Cancel(j: nat)

  function Init(): State {
    State(V.Contexts(map[], []), map[], map[])
  }

  function DoJoin(s: State, i: nat, key: string): State {
    s.(reg := V.Joined(s.reg, key), conns := s.conns[i := In(V.JoinedAt(s.reg, key))])
  }

  function DoLeave(s: State, i: nat, x: nat): State {
    s.(reg := V.Left(s.reg, x), conns := s.conns[i := Gone])
  }

  function Do(s: State, a: Action): Option<State> {
    match a
    case Join(i, key) => if i in s.conns then None else Some(DoJoin(s, i, key))
    case Leave(i) => if i in s.conns && s.conns[i].In? then Some(DoLeave(s, i, s.conns[i].x)) else None
    case Pop(j, key) =>
      if j in s.closers then None
      else
        var next := if key in s.reg.table then Popped(s.reg.table[key]) else Finished;
        Some(s.(reg := V.TakenOut(s.reg, key), closers := s.closers[j := next]))
    case Cancel(j) =>
      if j in s.closers && s.closers[j].Popped?
      then Some(s.(reg := V.Cancelled(s.reg, s.closers[j].x), closers := s.closers[j := Finished]))
      else None
  }

  function Exec(s: State, run: seq<Action>): Option<State>
    decreases |run|
  {
    if run == [] then Some(s)
    else match Do(s, run[0]) case None => None case Some(s') => Exec(s', run[1..])
  }

  // ----- what every state keeps

  ghost function Holders(conns: map<nat, Conn>, x: nat): set<nat> {
    set i | i in conns && conns[i] == In(x)
  }

  /** A closer has taken context `x` out and is about to cancel it. */
  ghost predicate Owed(s: State, x: nat) {
    exists j <- s.closers :: s.closers[j] == Popped(x)
  }

  ghost predicate Accounted(s: State, x: nat)
    requires x < |s.reg.all|
  {
    if V.Current(s.reg, x)
    then !s.reg.all[x].cancelled && !Owed(s, x) && s.reg.all[x].c == |Holders(s.conns, x)| >= 1
    else s.reg.all[x].cancelled || Owed(s, x)
  }

  ghost predicate Sound(s: State) {
    && (forall k <- s.reg.table :: s.reg.table[k] < |s.reg.all| && s.reg.all[s.reg.table[k]].key == k)
    && (forall i <- s.conns :: s.conns[i].In? ==> s.conns[i].x < |s.reg.all|)
    && (forall j <- s.closers :: s.closers[j].Popped? ==> s.closers[j].x < |s.reg.all|)
  }

  ghost predicate Inv(s: State) {
    Sound(s) && forall x: nat :: x < |s.reg.all| ==> Accounted(s, x)
  }

  lemma HoldersOfJoin(conns: map<nat, Conn>, i: nat, x: nat)
    requires i !in conns
    ensures Holders(conns[i := In(x)], x) == Holders(conns, x) + {i} && i !in Holders(conns, x)
    ensures forall y: nat :: y != x ==> Holders(conns[i := In(x)], y) == Holders(conns, y)
  {
  }

  lemma HoldersOfLeave(conns: map<nat, Conn>, i: nat, x: nat)
    requires i in conns && conns[i] == In(x)
    ensures Holders(conns[i := Gone], x) == Holders(conns, x) - {i} && i in Holders(conns, x)
    ensures forall y: nat :: y != x ==> Holders(conns[i := Gone], y) == Holders(conns, y)
  {
  }

  lemma NoHoldersYet(s: State)
    requires Sound(s)
    ensures Holders(s.conns, |s.reg.all|) == {} && !Owed(s, |s.reg.all|)
  {
  }

  lemma JoinOldKeepsInv(s: State, i: nat, key: string)
    requires Inv(s) && i !in s.conns && key in s.reg.table
    ensures Inv(DoJoin(s, i, key))
  {
    var s' := DoJoin(s, i, key);
    HoldersOfJoin(s.conns, i, s.reg.table[key]);
    forall y: nat | y < |s'.reg.all| ensures Accounted(s', y) {
      assert Accounted(s, y) && (Owed(s', y) <==> Owed(s, y));
    }
  }

  lemma JoinNewKeepsInv(s: State, i: nat, key: string)
    requires Inv(s) && i !in s.conns && key !in s.reg.table
    ensures Inv(DoJoin(s, i, key))
  {
    var s' := DoJoin(s, i, key);
    NoHoldersYet(s);
    HoldersOfJoin(s.conns, i, |s.reg.all|);
    forall y: nat | y < |s.reg.all| ensures Accounted(s', y) {
      assert Accounted(s, y) && (Owed(s', y) <==> Owed(s, y));
    }
    assert Accounted(s', |s.reg.all|) by {
      assert Owed(s', |s.reg.all|) <==> Owed(s, |s.reg.all|);
    }
  }

  lemma LeaveKeepsInv(s: State, i: nat, x: nat)
    requires Inv(s) && i in s.conns && s.conns[i] == In(x)
    ensures Inv(DoLeave(s, i, x))
  {
    var s' := DoLeave(s, i, x);
    HoldersOfLeave(s.conns, i, x);
    assert Accounted(s, x);
    forall y: nat | y < |s'.reg.all| ensures Accounted(s', y) {
      assert Accounted(s, y) && (Owed(s', y) <==> Owed(s, y));
    }
  }

  lemma PopKeepsInv(s: State, j: nat, key: string)
    requires Inv(s) && Do(s, Pop(j, key)).Some?
    ensures Inv(Do(s, Pop(j, key)).value)
  {
    var s' := Do(s, Pop(j, key)).value;
    forall y: nat | y < |s'.reg.all| ensures Accounted(s', y) {
      assert Accounted(s, y);
      if s'.closers[j] == Popped(y) {
        assert Owed(s', y);
      } else {
        OwedElsewhere(s, s', j, y);
      }
    }
  }

  lemma OwedElsewhere(s: State, s': State, j: nat, y: nat)
    requires j in s'.closers && s'.closers == s.closers[j := s'.closers[j]]
    requires s'.closers[j] != Popped(y) && (j in s.closers ==> s.closers[j] != Popped(y))
    ensures Owed(s', y) <==> Owed(s, y)
  {
    if Owed(s, y) {
      var d :| d in s.closers && s.closers[d] == Popped(y);
      assert s'.closers[d] == Popped(y);
    }
  }

  lemma CancelKeepsInv(s: State, j: nat)
    requires Inv(s) && Do(s, Cancel(j)).Some?
    ensures Inv(Do(s, Cancel(j)).value)
  {
    var s' := Do(s, Cancel(j)).value;
    var x := s.closers[j].x;
    assert Owed(s, x) && Accounted(s, x);
    forall y: nat | y < |s'.reg.all| ensures Accounted(s', y) {
      assert Accounted(s, y);
      if y != x {
        OwedElsewhere(s, s', j, y);
      }
    }
  }

  lemma StepKeepsInv(s: State, a: Action)
    requires Inv(s) && Do(s, a).Some?
    ensures Inv(Do(s, a).value)
  {
    match a
    case Join(i, key) => if key in s.reg.table { JoinOldKeepsInv(s, i, key); } else { JoinNewKeepsInv(s, i, key); }
    case Leave(i) => LeaveKeepsInv(s, i, s.conns[i].x);
    case Pop(j, key) => PopKeepsInv(s, j, key);
    case Cancel(j) => CancelKeepsInv(s, j);
  }

  lemma {:induction false} RunsKeepAccounts(s: State, run: seq<Action>)
    requires Inv(s) && Exec(s, run).Some?
    ensures Inv(Exec(s, run).value)
    decreases |run|
  {
    if run != [] {
      StepKeepsInv(s, run[0]);
      RunsKeepAccounts(Do(s, run[0]).value, run[1..]);
    }
  }

  /**
   In every run: a context in the map is not cancelled and counts its connections, of which
   there is one at least; a context out of the map is cancelled, or a closer is about to do it.
   */
  lemma LiveOrCancelled(run: seq<Action>, x: nat)
    requires Exec(Init(), run).Some? && x < |Exec(Init(), run).value.reg.all|
    ensures var s := Exec(Init(), run).value;
      if V.Current(s.reg, x) then !s.reg.all[x].cancelled && s.reg.all[x].c == |Holders(s.conns, x)| >= 1
      else s.reg.all[x].cancelled || Owed(s, x)
  {
    RunsKeepAccounts(Init(), run);
    assert Accounted(Exec(Init(), run).value, x);
  }

  /** A connection whose context is no longer the user's leaves without a trace, and no leave wraps a count around. */
  lemma StaleLeaveChangesNothing(run: seq<Action>, i: nat)
    requires Exec(Init(), run).Some?
    requires var s := Exec(Init(), run).value; i in s.conns && s.conns[i].In? && Do(s, Leave(i)).Some?
    ensures var s := Exec(Init(), run).value; var s' := Do(s, Leave(i)).value; var x := s.conns[i].x;
      && x < |s.reg.all|
      && (!V.Current(s.reg, x) ==> s'.reg.table == s.reg.table && s'.reg.all == s.reg.all)
      && (V.Current(s.reg, x) ==> s'.reg.all[x].c == s.reg.all[x].c - 1)
  {
    RunsKeepAccounts(Init(), run);
    var s := Exec(Init(), run).value;
    assert Accounted(s, s.conns[i].x);
  }

  // ----- what the calls come to

  /** A connection joins the context of its user, or a new one that is not cancelled and counts it alone. */
  lemma JoinSharesOrCreates(s: State, i: nat, key: string)
    requires Inv(s) && i !in s.conns
    ensures Do(s, Join(i, key)).Some?
    ensures var s' := Do(s, Join(i, key)).value;
      && s'.closers == s.closers
      && if key in s.reg.table then
           var x := s.reg.table[key];
           && s'.conns == s.conns[i := In(x)] && s'.reg.table == s.reg.table
           && x < |s.reg.all| && s'.reg.all == s.reg.all[x := s.reg.all[x].(c := s.reg.all[x].c + 1)]
         else
           && s'.conns == s.conns[i := In(|s.reg.all|)] && s'.reg.table == s.reg.table[key := |s.reg.all|]
           && s'.reg.all == s.reg.all + [V.Context(key, 1, false)]
  {
  }

  /** A connection leaves once. The last one of a live context takes it out of the map and cancels it; any other takes
      itself off the count. */
  lemma LeaveGivesBack(s: State, i: nat)
    requires Inv(s) && i in s.conns
    ensures Do(s, Leave(i)).Some? <==> s.conns[i].In?
    ensures s.conns[i].In? ==>
      var x := s.conns[i].x; var s' := Do(s, Leave(i)).value;
      && s'.conns == s.conns[i := Gone] && s'.closers == s.closers && x < |s.reg.all| == |s'.reg.all|
      && (V.Current(s.reg, x) ==>
            if |Holders(s.conns, x)| == 1
            then s'.reg.table == s.reg.table - {s.reg.all[x].key} && s'.reg.all[x].cancelled
            else s'.reg.table == s.reg.table && !s'.reg.all[x].cancelled)
  {
    if s.conns[i].In? {
      assert Accounted(s, s.conns[i].x);
    }
  }

  /** A close takes the user's context out of the map, if there is one, and then cancels that one and no other. */
  lemma CloseTakesOutAndCancels(s: State, j: nat, key: string)
    requires Inv(s) && j !in s.closers
    ensures Do(s, Pop(j, key)).Some?
    ensures var s1 := Do(s, Pop(j, key)).value;
      && s1.reg == V.Contexts(s.reg.table - {key}, s.reg.all) && s1.conns == s.conns
      && s1.closers == s.closers[j := if key in s.reg.table then Popped(s.reg.table[key]) else Finished]
  {
  }

  /** Until it does, nothing keeps it from doing so, and what is cancelled stays cancelled. */
  lemma {:induction false} CancelsInTheEnd(s: State, run: seq<Action>, j: nat, x: nat)
    requires j in s.closers && s.closers[j] == Popped(x) && x < |s.reg.all| && Exec(s, run).Some?
    ensures var s' := Exec(s, run).value;
      && j in s'.closers && x < |s'.reg.all|
      && (if s'.closers[j] == Popped(x) then Do(s', Cancel(j)).Some? && Do(s', Cancel(j)).value.reg.all[x].cancelled
          else s'.closers[j].Finished? && s'.reg.all[x].cancelled)
    decreases |run|
  {
    if run != [] {
      var s1 := Do(s, run[0]).value;
      if s1.closers[j] == Popped(x) {
        CancelsInTheEnd(s1, run[1..], j, x);
      } else {
        CancelledStays(s1, run[1..], j, x);
      }
    }
  }

  lemma {:induction false} CancelledStays(s: State, run: seq<Action>, j: nat, x: nat)
    requires x < |s.reg.all| && s.reg.all[x].cancelled && j in s.closers && s.closers[j].Finished?
    requires Exec(s, run).Some?
    ensures var s' := Exec(s, run).value;
      x < |s'.reg.all| && s'.reg.all[x].cancelled && j in s'.closers && s'.closers[j].Finished?
    decreases |run|
  {
    if run != [] {
      CancelledStays(Do(s, run[0]).value, run[1..], j, x);
    }
  }

  /** In every run: when every connection has left and no close is halfway, the map is empty and all is cancelled. */
  lemma NothingLeaks(run: seq<Action>)
    requires Exec(Init(), run).Some?
    requires var s := Exec(Init(), run).value;
      (forall i <- s.conns :: s.conns[i].Gone?) && (forall j <- s.closers :: s.closers[j].Finished?)
    ensures var s := Exec(Init(), run).value;
      s.reg.table == map[] && forall x: nat :: x < |s.reg.all| ==> s.reg.all[x].cancelled
  {
    RunsKeepAccounts(Init(), run);
    var s := Exec(Init(), run).value;
    forall x: nat | x < |s.reg.all| ensures s.reg.all[x].cancelled && !V.Current(s.reg, x) {
      assert Accounted(s, x) && Holders(s.conns, x) == {};
    }
    assert forall k <- s.reg.table :: V.Current(s.reg, s.reg.table[k]);
  }

  // ----- connections per ip

  datatype Door = Door(limit: int, counts: map<string, int>, inside: map<nat, string>)

  datatype Visit = Arrive(i: nat, ip: string) | Depart(i: nat)

  /** A connection that is refused does not get inside; one that ends gives its place back. */
  function Visited(d: Door, v: Visit): Option<Door> {
    match v
    case Arrive(i, ip) =>
      if i in d.inside then None
      else if !V.Admits(d.counts, ip, d.limit) then Some(d)
      else Some(d.(counts := V.Added(d.counts, ip, d.limit), inside := d.inside[i := ip]))
    case Depart(i) =>
      if i !in d.inside then None
      else Some(d.(counts := V.Reduced(d.counts, d.inside[i]), inside := d.inside - {i}))
  }

  function Visits(d: Door, run: seq<Visit>): Option<Door>
    decreases |run|
  {
    if run == [] then Some(d)
    else match Visited(d, run[0]) case None => None case Some(d') => Visits(d', run[1..])
  }

  /** The connections of `ip` that were admitted and have not been released. */
  ghost function Of(inside: map<nat, string>, ip: string): set<nat> {
    set i | i in inside && inside[i] == ip
  }

  ghost predicate Counted(d: Door, ip: string) {
    && (ip in d.counts <==> Of(d.inside, ip) != {})
    && (ip in d.counts ==> d.counts[ip] == |Of(d.inside, ip)| && (d.limit != 0 ==> d.counts[ip] <= Max(1, d.limit)))
  }

  lemma OfAfterArrival(inside: map<nat, string>, i: nat, ip: string)
    requires i !in inside
    ensures Of(inside[i := ip], ip) == Of(inside, ip) + {i} && i !in Of(inside, ip)
    ensures forall other: string :: other != ip ==> Of(inside[i := ip], other) == Of(inside, other)
  {
  }

  lemma ArriveKeepsCounts(d: Door, i: nat, ip: string, other: string)
    requires Counted(d, other) && Visited(d, Arrive(i, ip)).Some?
    ensures Counted(Visited(d, Arrive(i, ip)).value, other)
  {
    OfAfterArrival(d.inside, i, ip);
  }

  lemma DepartKeepsCounts(d: Door, i: nat, other: string)
    requires Counted(d, other) && Visited(d, Depart(i)).Some?
    ensures Counted(Visited(d, Depart(i)).value, other)
  {
    var d' := Visited(d, Depart(i)).value;
    assert Of(d'.inside, other) == Of(d.inside, other) - {i};
    assert d.inside[i] == other ==> i in Of(d.inside, other);
    assert d'.inside.Keys == d.inside.Keys - {i};
    assert |Of(d'.inside, other)| == 0 <==> Of(d'.inside, other) == {};
  }

  lemma {:induction false} RunsKeepCounts(d: Door, run: seq<Visit>, ip: string)
    requires Counted(d, ip) && Visits(d, run).Some?
    ensures Counted(Visits(d, run).value, ip) && Visits(d, run).value.limit == d.limit
    decreases |run|
  {
    if run != [] {
      var v := run[0];
      if v.Arrive? { ArriveKeepsCounts(d, v.i, v.ip, ip); } else { DepartKeepsCounts(d, v.i, ip); }
      RunsKeepCounts(Visited(d, v).value, run[1..], ip);
    }
  }

  /**
   In every run, for every ip: the entry exists exactly while connections are inside, it is
   their number, and with a limit it is at most that (at most one if the limit is negative).
   */
  lemma CountsAreRight(limit: int, run: seq<Visit>, ip: string)
    requires Visits(Door(limit, map[], map[]), run).Some?
    ensures var d := Visits(Door(limit, map[], map[]), run).value;
      && (ip in d.counts <==> Of(d.inside, ip) != {})
      && (ip in d.counts ==> d.counts[ip] == |Of(d.inside, ip)| && (limit != 0 ==> d.counts[ip] <= Max(1, limit)))
  {
    RunsKeepCounts(Door(limit, map[], map[]), run, ip);
  }

  /**
   In every run: an arrival is let in if and only if no connection of its ip is inside, or there is
   no limit, or fewer are inside than the limit; and whoever is inside can leave.
   */
  lemma LetInIff(limit: int, run: seq<Visit>, i: nat, ip: string)
    requires Visits(Door(limit, map[], map[]), run).Some?
    ensures var d := Visits(Door(limit, map[], map[]), run).value; var inside := |Of(d.inside, ip)|;
      && (i !in d.inside ==>
            && Visited(d, Arrive(i, ip)).Some?
            && var d' := Visited(d, Arrive(i, ip)).value;
               d'.inside == if inside == 0 || limit == 0 || inside < limit then d.inside[i := ip] else d.inside)
      && (i in d.inside ==>
            Visited(d, Depart(i)).Some? && Visited(d, Depart(i)).value.inside == d.inside - {i})
  {
    RunsKeepCounts(Door(limit, map[], map[]), run, ip);
    var d := Visits(Door(limit, map[], map[]), run).value;
    assert |Of(d.inside, ip)| == 0 <==> Of(d.inside, ip) == {};
  }
}
