/**
 Many threads in GetReadSize of server/flow_limit.go, with the clock ticking and the parameters
 changing between their steps.

 A thread draws a shard number, locks that shard, looks at its balance, and if that is used up
 locks the pool, reads the clock and refills; then it takes its grant and leaves. The rate is not
 under any of its locks, and every read of it is a step: the comparison with the balance, the
 comparison with the request, the deduction and the return.
 */
module FlowLimitRuns {
  import opened Prelude
  import opened FlowLimit
  import opened Sums

  datatype Thread =
    | Locking(i: nat, want: nat)           // drew shard i, about to lock it
    | Looking(i: nat, want: nat)           // holds shard i
    | Refilling(i: nat, want: nat)         // found it empty, about to lock the pool
    | Timed(i: nat, want: nat, now: int)   // holds the pool too and has read the clock
    | Granting(i: nat, want: nat)          // about to compare the rate with the balance
    | Comparing(i: nat, want: nat, from: int, rate: int)
                                           // `rate` was less than the balance `from`; about to compare with the request
    | Deducting(i: nat, want: nat, from: int, rate: int)
                                           // the rate was less again; about to deduct it from the balance
    | Returning(i: nat, want: nat, from: int, rate: int, paid: int)
                                           // deducted `paid`, about to return the rate
    | Left(want: nat, from: int, rate: int, grant: int)
                                           // asked for `want` with a balance of `from` and a rate of `rate`

  datatype State = State(
    limit: Limit,
    clock: int,
    counter: nat,
    owners: seq<Option<nat>>,     // who holds which shard
    poolOwner: Option<nat>,
    threads: map<nat, Thread>,
    accounts: seq<int>,           // the balances, plus what was deducted and is about to be returned
    granted: int,                 // in all
    grantedNow: int,              // in this second
    refills: int,                 // put into the pool at resets
    discarded: int,               // what the pool still held at resets
    initial: int)

  datatype Action =
    | Call(c: nat, want: nat)
    | LockShard(c: nat)
    | Look(c: nat)
    | LockPool(c: nat)
    | Refill(c: nat)
    | CompareBalance(c: nat)
    | CompareRequest(c: nat)
    | Deduct(c: nat)
    | Return(c: nat)
    | Tick(seconds: nat)
    | Update(rate: int, burst: int)

  function Init(rate: int, burst: int, now: int): State {
    var l := Fresh(rate, burst, now);
    State(l, now, 0, seq(SHARDS, _ => None), None, map[], l.shards, 0, 0, 0, 0, Stock(l))
  }

  function Move(s: State, c: nat, t: Thread): State {
    s.(threads := s.threads[c := t])
  }

  /** Thread `c` gives shard `i` back and leaves as `t`; the books of the shard are then its balance. */
  function Leave(s: State, c: nat, i: nat, t: Thread): State
    requires i < |s.owners| && i < |s.limit.shards| && i < |s.accounts| && t.Left?
  {
    Move(s, c, t).(
      owners := s.owners[i := None], accounts := s.accounts[i := s.limit.shards[i]],
      granted := s.granted + t.grant, grantedNow := s.grantedNow + t.grant)
  }

  function Deducted(s: State, i: nat, amount: int): State
    requires i < |s.limit.shards|
  {
    s.(limit := s.limit.(shards := s.limit.shards[i := s.limit.shards[i] - amount]))
  }

  predicate InRange(s: State, t: Thread) {
    !t.Left? && t.i < |s.owners| && t.i < |s.limit.shards| && t.i < |s.accounts|
  }

  /** Steps up to the point where the shard has what it can get. */
  function DoPrepare(s: State, a: Action): Option<State>
    requires a.LockShard? || a.Look? || a.LockPool? || a.Refill?
  {
    if a.c !in s.threads || !InRange(s, s.threads[a.c]) then None
    else
      var t := s.threads[a.c];
      match a
      case LockShard(c) =>
        if t.Locking? && s.owners[t.i].None?
        then Some(Move(s, c, Looking(t.i, t.want)).(owners := s.owners[t.i := Some(c)]))
        else None
      case Look(c) =>
        if !t.Looking? then None
        else Some(Move(s, c, if s.limit.shards[t.i] <= 0 then Refilling(t.i, t.want) else Granting(t.i, t.want)))
      case LockPool(c) =>
        if t.Refilling? && s.poolOwner.None?
        then Some(Move(s, c, Timed(t.i, t.want, s.clock)).(poolOwner := Some(c)))
        else None
      case Refill(c) => if t.Timed? then Some(DoRefill(s, c, t.i, t.want, t.now)) else None
  }

  /** With an empty pool the call ends with nothing; otherwise the shard gets its part. */
  function DoRefill(s: State, c: nat, i: nat, want: nat, now: int): State
    requires i < |s.owners| && i < |s.limit.shards| && i < |s.accounts|
  {
    var reset := s.limit.stamp != now;
    var s' := s.(poolOwner := None,
      refills := s.refills + (if reset then s.limit.burst else 0),
      discarded := s.discarded + (if reset then s.limit.pool else 0));
    if PoolAt(s.limit, now) == 0 then
      Leave(s'.(limit := s.limit.(stamp := now, pool := 0)), c, i, Left(want, 0, s.limit.rate, 0))
    else
      var l := Refilled(s.limit, i, now);
      Move(s', c, Granting(i, want)).(limit := l, accounts := s.accounts[i := l.shards[i]])
  }

  /** The four reads of the rate. */
  function DoGrant(s: State, a: Action): Option<State>
    requires a.CompareBalance? || a.CompareRequest? || a.Deduct? || a.Return?
  {
    if a.c !in s.threads || !InRange(s, s.threads[a.c]) then None
    else
      var t := s.threads[a.c];
      var rate, balance := s.limit.rate, s.limit.shards[t.i];
      match a
      case CompareBalance(c) =>
        if !t.Granting? then None
        else if rate < balance then Some(Move(s, c, Comparing(t.i, t.want, balance, rate)))
        else
          var g := Min(t.want, balance);
          Some(Leave(Deducted(s, t.i, g), c, t.i, Left(t.want, balance, rate, g)))
      case CompareRequest(c) =>
        if !t.Comparing? then None
        else if rate < t.want then Some(Move(s, c, Deducting(t.i, t.want, t.from, t.rate)))
        else Some(Leave(Deducted(s, t.i, t.want), c, t.i, Left(t.want, t.from, t.rate, t.want)))
      case Deduct(c) =>
        if !t.Deducting? then None
        else Some(Move(Deducted(s, t.i, rate), c, Returning(t.i, t.want, t.from, t.rate, rate)))
      case Return(c) =>
        if t.Returning? then Some(Leave(s, c, t.i, Left(t.want, t.from, t.rate, rate))) else None
  }

  function Do(s: State, a: Action): Option<State> {
    if a.LockShard? || a.Look? || a.LockPool? || a.Refill? then DoPrepare(s, a)
    else if a.Call? then
      if a.c in s.threads then None
      else
        var n := (s.counter + 1) % TWO_TO_THE_64;
        Some(Move(s, a.c, Locking(n % SHARDS, a.want)).(counter := n))
    else if a.Tick? then
      if a.seconds == 0 then Some(s) else Some(s.(clock := s.clock + a.seconds, grantedNow := 0))
    else if a.Update? then
      if s.poolOwner.Some? then None
      else
        var l := Updated(s.limit, a.rate, a.burst);
        Some(s.(limit := l, refills := s.refills + l.burst, discarded := s.discarded + s.limit.pool))
    else DoGrant(s, a)
  }

  function Exec(s: State, run: seq<Action>): Option<State>
    decreases |run|
  {
    if run == [] then Some(s)
    else match Do(s, run[0]) case None => None case Some(s') => Exec(s', run[1..])
  }

  lemma {:induction false} Extend(s: State, run: seq<Action>, a: Action)
    requires Exec(s, run).Some?
    ensures Exec(s, run + [a]) == Do(Exec(s, run).value, a)
    decreases |run|
  {
    if run == [] {
      assert run + [a] == [a] && [a][1..] == [];
    } else {
      assert (run + [a])[1..] == run[1..] + [a];
      Extend(Do(s, run[0]).value, run[1..], a);
    }
  }

  // ----- the invariant

  ghost predicate Shaped(s: State) {
    |s.owners| == |s.accounts| == SHARDS && Sane(s.limit) && s.limit.stamp <= s.clock
  }

  /** The rate that the rest of a grant will see does no harm to it. */
  predicate Harmless(t: Thread, balance: int, rate: int) {
    match t
    case Comparing(_, want, _, _) => Min(want, rate) <= balance
    case Deducting(_, want, _, _) => rate <= Min(want, balance)
    case Returning(_, _, _, _, paid) => rate == paid
    case _ => true
  }

  /** A call takes and returns no more than it asked for, and no more than the balance it started from. */
  predicate Modest(t: Thread) {
    match t
    case Returning(_, want, from, _, paid) => paid <= Min(want, from)
    case Left(want, from, _, grant) => grant <= Min(want, from)
    case _ => true
  }

  /** What thread `c` holds, and what it knows because of that. */
  ghost predicate ThreadOk(s: State, c: nat, t: Thread)
    requires Shaped(s)
  {
    && Modest(t)
    && (!t.Left? ==>
      && t.i < SHARDS
      && (!t.Locking? ==> s.owners[t.i] == Some(c))
      && (t.Refilling? || t.Timed? ==> s.limit.shards[t.i] == 0)
      && (t.Timed? ==> s.poolOwner == Some(c) && s.limit.stamp <= t.now <= s.clock)
      && (!t.Locking? ==> s.accounts[t.i] == s.limit.shards[t.i] + if t.Returning? then t.paid else 0)
      && (t.Comparing? || t.Deducting? || t.Returning? ==> t.from == s.accounts[t.i])
      && Harmless(t, s.limit.shards[t.i], s.limit.rate))
  }

  /** A shard that nobody holds has its balance in the books. */
  ghost predicate FreeOk(s: State)
    requires Shaped(s)
  {
    forall i: nat :: i < SHARDS ==>
      match s.owners[i]
      case None => s.accounts[i] == s.limit.shards[i]
      case Some(c) => c in s.threads && !s.threads[c].Left? && !s.threads[c].Locking? && s.threads[c].i == i
  }

  ghost predicate Balanced(s: State) {
    s.granted + Sum(s.accounts) + s.limit.pool + s.discarded == s.initial + s.refills
  }

  /** The books balance, no shard is overdrawn, and no call got more than it asked for or its shard had. */
  ghost predicate Right(s: State) {
    && Balanced(s)
    && (forall i :: 0 <= i < |s.limit.shards| ==> s.limit.shards[i] >= 0)
    && (forall c <- s.threads :: Modest(s.threads[c]))
  }

  ghost predicate Inv(s: State) {
    && Shaped(s) && Balanced(s) && FreeOk(s)
    && (forall c <- s.threads :: ThreadOk(s, c, s.threads[c]))
  }

  /** Threads other than `c` do not notice a change to the shard that `c` holds. */
  ghost predicate OnlyTouches(s: State, s': State, c: nat, i: nat)
    requires Shaped(s) && Shaped(s')
  {
    && c in s'.threads && s'.threads == s.threads[c := s'.threads[c]]
    && s'.limit.rate == s.limit.rate && s'.clock == s.clock
    && forall k: nat :: k < SHARDS && k != i ==>
         s'.owners[k] == s.owners[k] && s'.accounts[k] == s.accounts[k] && s'.limit.shards[k] == s.limit.shards[k]
  }

  lemma TouchKeepsInv(s: State, s': State, c: nat, i: nat)
    requires Inv(s) && Shaped(s') && Balanced(s') && i < SHARDS && OnlyTouches(s, s', c, i)
    requires s.owners[i].None? || s.owners[i] == Some(c)
    requires c in s.threads && !s.threads[c].Left? && s.threads[c].i == i
    requires s.poolOwner == Some(c)
             || (s'.limit.stamp == s.limit.stamp && (s.poolOwner.None? || s'.poolOwner == s.poolOwner))
    requires ThreadOk(s', c, s'.threads[c])
    requires if s'.owners[i].None? then s'.accounts[i] == s'.limit.shards[i]
             else s'.owners[i] == Some(c) && !s'.threads[c].Left? && !s'.threads[c].Locking? && s'.threads[c].i == i
    ensures Inv(s')
  {
    forall d <- s'.threads ensures ThreadOk(s', d, s'.threads[d]) {
      assert d in s.threads ==> ThreadOk(s, d, s.threads[d]);
    }
    forall k: nat | k < SHARDS ensures
      match s'.owners[k]
      case None => s'.accounts[k] == s'.limit.shards[k]
      case Some(d) => d in s'.threads && !s'.threads[d].Left? && !s'.threads[d].Locking? && s'.threads[d].i == k
    {
      assert s.owners[k].Some? ==> s.owners[k].value in s.threads && s.threads[s.owners[k].value].i == k;
    }
  }

  lemma PrepareKeepsInv(s: State, a: Action)
    requires a.LockShard? || a.Look? || a.LockPool?
    requires Inv(s) && Do(s, a).Some?
    ensures Inv(Do(s, a).value)
  {
    var t := s.threads[a.c];
    assert ThreadOk(s, a.c, t);
    TouchKeepsInv(s, Do(s, a).value, a.c, t.i);
  }

  lemma RefusalKeepsInv(s: State, c: nat)
    requires Inv(s) && c in s.threads && s.threads[c].Timed? && InRange(s, s.threads[c])
    requires PoolAt(s.limit, s.threads[c].now) == 0
    ensures Inv(Do(s, Refill(c)).value)
  {
    var t := s.threads[c];
    assert ThreadOk(s, c, t);
    SumOfUpdate(s.accounts, t.i, 0);
    TouchKeepsInv(s, Do(s, Refill(c)).value, c, t.i);
  }

  lemma RefillKeepsInv(s: State, c: nat)
    requires Inv(s) && Do(s, Refill(c)).Some?
    ensures Inv(Do(s, Refill(c)).value)
  {
    var t := s.threads[c];
    assert ThreadOk(s, c, t);
    if PoolAt(s.limit, t.now) == 0 {
      RefusalKeepsInv(s, c);
    } else {
      var s' := Do(s, Refill(c)).value;
      SumOfUpdate(s.accounts, t.i, s'.limit.shards[t.i]);
      TouchKeepsInv(s, s', c, t.i);
    }
  }

  /** A thread that takes `d` more from its shard and returns all it has taken. */
  lemma LeaveKeepsInv(s: State, c: nat, d: int, t': Thread)
    requires Inv(s) && c in s.threads && InRange(s, s.threads[c]) && !s.threads[c].Locking? && !s.threads[c].Timed?
    requires var i := s.threads[c].i;
      d <= s.limit.shards[i] && t'.Left? && Modest(t') && t'.grant == d + s.accounts[i] - s.limit.shards[i]
    ensures var i := s.threads[c].i; Inv(Leave(Deducted(s, i, d), c, i, t'))
  {
    var i := s.threads[c].i;
    assert ThreadOk(s, c, s.threads[c]);
    SumOfUpdate(s.accounts, i, s.limit.shards[i] - d);
    TouchKeepsInv(s, Leave(Deducted(s, i, d), c, i, t'), c, i);
  }

  lemma CompareBalanceKeepsInv(s: State, c: nat)
    requires Inv(s) && Do(s, CompareBalance(c)).Some?
    ensures Inv(Do(s, CompareBalance(c)).value)
  {
    var t := s.threads[c];
    assert ThreadOk(s, c, t);
    var balance := s.limit.shards[t.i];
    if s.limit.rate < balance {
      TouchKeepsInv(s, Do(s, CompareBalance(c)).value, c, t.i);
    } else {
      var g := Min(t.want, balance);
      LeaveKeepsInv(s, c, g, Left(t.want, balance, s.limit.rate, g));
    }
  }

  lemma CompareRequestKeepsInv(s: State, c: nat)
    requires Inv(s) && Do(s, CompareRequest(c)).Some?
    ensures Inv(Do(s, CompareRequest(c)).value)
  {
    var t := s.threads[c];
    assert ThreadOk(s, c, t);
    if s.limit.rate < t.want {
      TouchKeepsInv(s, Do(s, CompareRequest(c)).value, c, t.i);
    } else {
      LeaveKeepsInv(s, c, t.want, Left(t.want, t.from, t.rate, t.want));
    }
  }

  lemma DeductKeepsInv(s: State, c: nat)
    requires Inv(s) && Do(s, Deduct(c)).Some?
    ensures Inv(Do(s, Deduct(c)).value)
  {
    var t := s.threads[c];
    assert ThreadOk(s, c, t);
    TouchKeepsInv(s, Do(s, Deduct(c)).value, c, t.i);
  }

  lemma ReturnKeepsInv(s: State, c: nat)
    requires Inv(s) && Do(s, Return(c)).Some?
    ensures Inv(Do(s, Return(c)).value)
  {
    var t := s.threads[c];
    assert ThreadOk(s, c, t);
    assert Deducted(s, t.i, 0) == s;
    LeaveKeepsInv(s, c, 0, Left(t.want, t.from, t.rate, s.limit.rate));
  }

  /** An update does no harm to any grant in progress. */
  ghost predicate UpdateHarmless(s: State, rate: int) {
    forall c <- s.threads :: InRange(s, s.threads[c]) ==>
      Harmless(s.threads[c], s.limit.shards[s.threads[c].i], OrDefault(rate, DEFAULT_RATE))
  }

  lemma OutsideKeepsInv(s: State, a: Action)
    requires a.Call? || a.Tick? || (a.Update? && UpdateHarmless(s, a.rate))
    requires Inv(s) && Do(s, a).Some?
    ensures Inv(Do(s, a).value)
  {
    var s' := Do(s, a).value;
    forall d <- s'.threads ensures ThreadOk(s', d, s'.threads[d]) {
      assert d in s.threads ==> ThreadOk(s, d, s.threads[d]);
    }
  }

  lemma StepKeepsInv(s: State, a: Action)
    requires Inv(s) && Do(s, a).Some? && (a.Update? ==> UpdateHarmless(s, a.rate))
    ensures Inv(Do(s, a).value)
  {
    if a.Refill? {
      RefillKeepsInv(s, a.c);
    } else if a.LockShard? || a.Look? || a.LockPool? {
      PrepareKeepsInv(s, a);
    } else if a.CompareBalance? {
      CompareBalanceKeepsInv(s, a.c);
    } else if a.CompareRequest? {
      CompareRequestKeepsInv(s, a.c);
    } else if a.Deduct? {
      DeductKeepsInv(s, a.c);
    } else if a.Return? {
      ReturnKeepsInv(s, a.c);
    } else {
      OutsideKeepsInv(s, a);
    }
  }

  /** Every update of the run comes when it does no harm. */
  ghost predicate Careful(s: State, run: seq<Action>)
    requires Exec(s, run).Some?
    decreases |run|
  {
    run != [] ==>
      && (run[0].Update? ==> UpdateHarmless(s, run[0].rate))
      && Careful(Do(s, run[0]).value, run[1..])
  }

  lemma {:induction false} CarefulRunsKeepInv(s: State, run: seq<Action>)
    requires Inv(s) && Exec(s, run).Some? && Careful(s, run)
    ensures Inv(Exec(s, run).value)
    decreases |run|
  {
    if run != [] {
      StepKeepsInv(s, run[0]);
      CarefulRunsKeepInv(Do(s, run[0]).value, run[1..]);
    }
  }

  // ----- the ledger

  /** No update falls between two rate reads of one grant. */
  ghost predicate Untorn(s: State, run: seq<Action>)
    requires Exec(s, run).Some?
    decreases |run|
  {
    run != [] ==>
      && (run[0].Update? ==> forall c <- s.threads ::
            !s.threads[c].Comparing? && !s.threads[c].Deducting? && !s.threads[c].Returning?)
      && Untorn(Do(s, run[0]).value, run[1..])
  }

  lemma {:induction false} UntornIsCareful(s: State, run: seq<Action>)
    requires Exec(s, run).Some? && Untorn(s, run)
    ensures Careful(s, run)
    decreases |run|
  {
    if run != [] {
      UntornIsCareful(Do(s, run[0]).value, run[1..]);
    }
  }

  lemma StartKeepsInv(rate: int, burst: int, now: int)
    ensures Inv(Init(rate, burst, now))
  {
  }

  /** With no grant about to return, the books are the balances. */
  lemma BooksAreBalances(s: State)
    requires Inv(s) && forall c <- s.threads :: !s.threads[c].Returning?
    ensures s.accounts == s.limit.shards
  {
    forall i: nat | i < SHARDS ensures s.accounts[i] == s.limit.shards[i] {
      if s.owners[i].Some? {
        var c := s.owners[i].value;
        assert ThreadOk(s, c, s.threads[c]);
      }
    }
  }

  /**
   In every careful run, and so in every run without an update between two rate reads of one
   grant: granted + balances + in hand + pool + discarded = initial stock + refills, balances are
   not negative, and no call returned more than it asked for or than its shard had.
   */
  lemma Ledger(rate: int, burst: int, now: int, run: seq<Action>)
    requires Exec(Init(rate, burst, now), run).Some?
    requires Careful(Init(rate, burst, now), run) || Untorn(Init(rate, burst, now), run)
    ensures var s := Exec(Init(rate, burst, now), run).value;
      && Right(s)
      && ((forall c <- s.threads :: !s.threads[c].Returning?) ==> s.accounts == s.limit.shards)
  {
    StartKeepsInv(rate, burst, now);
    if Untorn(Init(rate, burst, now), run) {
      UntornIsCareful(Init(rate, burst, now), run);
    }
    CarefulRunsKeepInv(Init(rate, burst, now), run);
    var s := Exec(Init(rate, burst, now), run).value;
    forall c <- s.threads ensures Modest(s.threads[c]) { assert ThreadOk(s, c, s.threads[c]); }
    if forall c <- s.threads :: !s.threads[c].Returning? {
      BooksAreBalances(s);
    }
  }
}
