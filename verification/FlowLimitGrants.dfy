/**
 What a single call of GetReadSize of server/flow_limit.go gets while many others run between its
 steps.
 */
module FlowLimitGrants {
  import opened Prelude
  import opened FlowLimit
  import opened FlowLimitRuns

  /** The grant is, or will be, the least of what it started from. */
  ghost predicate OnCourse(t: Thread, rate: int) {
    match t
    case Comparing(_, want, from, r) => r == rate < from
    case Deducting(_, want, from, r) => r == rate < from && rate < want
    case Returning(_, want, from, r, paid) => r == rate == paid < from && rate < want
    case Left(want, from, r, grant) => grant == Least(want, r, from)
    case _ => true
  }

  ghost predicate AllOnCourse(s: State) {
    s.limit.rate >= 1 && forall c <- s.threads :: OnCourse(s.threads[c], s.limit.rate)
  }

  lemma PrepareStaysOnCourse(s: State, a: Action)
    requires a.LockShard? || a.Look? || a.LockPool? || a.Refill?
    requires AllOnCourse(s) && Do(s, a).Some?
    ensures AllOnCourse(Do(s, a).value)
  {
    var s' := Do(s, a).value;
    assert s'.threads == s.threads[a.c := s'.threads[a.c]] && s'.limit.rate == s.limit.rate;
  }

  lemma GrantStaysOnCourse(s: State, a: Action)
    requires a.CompareBalance? || a.CompareRequest? || a.Deduct? || a.Return?
    requires AllOnCourse(s) && Do(s, a).Some?
    ensures AllOnCourse(Do(s, a).value)
  {
    var s' := Do(s, a).value;
    assert OnCourse(s.threads[a.c], s.limit.rate);
    assert s'.threads == s.threads[a.c := s'.threads[a.c]] && s'.limit.rate == s.limit.rate;
  }

  lemma {:induction false} UntornRunsStayOnCourse(s: State, run: seq<Action>)
    requires AllOnCourse(s) && Exec(s, run).Some? && Untorn(s, run)
    ensures AllOnCourse(Exec(s, run).value)
    decreases |run|
  {
    if run != [] {
      var a := run[0];
      if a.LockShard? || a.Look? || a.LockPool? || a.Refill? {
        PrepareStaysOnCourse(s, a);
      } else if a.CompareBalance? || a.CompareRequest? || a.Deduct? || a.Return? {
        GrantStaysOnCourse(s, a);
      }
      UntornRunsStayOnCourse(Do(s, a).value, run[1..]);
    }
  }

  /**
   In every run with no update between two rate reads of one grant, whatever other threads do in
   between: a call that has returned got the least of its request, the rate and the balance of its
   shard after the refill.
   */
  lemma GrantsAreLeast(rate: int, burst: int, now: int, run: seq<Action>, c: nat)
    requires Exec(Init(rate, burst, now), run).Some? && Untorn(Init(rate, burst, now), run)
    ensures var s := Exec(Init(rate, burst, now), run).value;
      c in s.threads && s.threads[c].Left? ==>
        var t := s.threads[c]; t.grant == Least(t.want, t.rate, t.from)
  {
    UntornRunsStayOnCourse(Init(rate, burst, now), run);
    var s := Exec(Init(rate, burst, now), run).value;
    assert c in s.threads ==> OnCourse(s.threads[c], s.limit.rate);
  }

  // ----- fixed parameters

  predicate ParametersFixed(run: seq<Action>) {
    forall i :: 0 <= i < |run| ==> !run[i].Update?
  }

  ghost predicate OneRate(s: State, rate: int) {
    s.limit.rate == rate && forall c <- s.threads ::
      s.threads[c].Comparing? || s.threads[c].Deducting? || s.threads[c].Returning? || s.threads[c].Left?
      ==> s.threads[c].rate == rate
  }

  lemma StepKeepsOneRate(s: State, a: Action, rate: int)
    requires OneRate(s, rate) && !a.Update? && Do(s, a).Some?
    ensures OneRate(Do(s, a).value, rate)
  {
  }

  lemma {:induction false} FixedRunsKeepOneRate(s: State, run: seq<Action>, rate: int)
    requires OneRate(s, rate) && ParametersFixed(run) && Exec(s, run).Some?
    ensures OneRate(Exec(s, run).value, rate) && Untorn(s, run)
    decreases |run|
  {
    if run != [] {
      StepKeepsOneRate(s, run[0], rate);
      FixedRunsKeepOneRate(Do(s, run[0]).value, run[1..], rate);
    }
  }

  /** With fixed parameters, each completed grant is the least of request, configured rate and balance after refill. */
  lemma FixedGrantsAreLeast(rate: int, burst: int, now: int, run: seq<Action>, c: nat)
    requires Exec(Init(rate, burst, now), run).Some? && ParametersFixed(run)
    ensures var s := Exec(Init(rate, burst, now), run).value;
      c in s.threads && s.threads[c].Left? ==>
        var t := s.threads[c]; t.grant == Least(t.want, OrDefault(rate, DEFAULT_RATE), t.from)
  {
    FixedRunsKeepOneRate(Init(rate, burst, now), run, OrDefault(rate, DEFAULT_RATE));
    GrantsAreLeast(rate, burst, now, run, c);
  }

  // ----- the balance that a grant starts from

  /** Every thread inside a call holds its shard, and a share is an eighth of the burst. */
  ghost predicate Locks(s: State) {
    && |s.owners| == |s.accounts| == |s.limit.shards| == SHARDS
    && s.limit.burst >= 1 && s.limit.pool >= 0 && s.limit.maxFlow == s.limit.burst / 8
    && forall c <- s.threads :: Holds(s, c, s.threads[c])
  }

  ghost predicate Holds(s: State, c: nat, t: Thread) {
    !t.Left? ==> t.i < |s.owners| && (!t.Locking? ==> s.owners[t.i] == Some(c))
  }

  lemma InsideKeepsLocks(s: State, a: Action)
    requires Locks(s) && !a.Call? && !a.Tick? && !a.Update? && Do(s, a).Some?
    ensures Locks(Do(s, a).value)
  {
    var s' := Do(s, a).value;
    assert Holds(s, a.c, s.threads[a.c]);
    forall c <- s'.threads ensures Holds(s', c, s'.threads[c]) {
      assert Holds(s, c, s.threads[c]);
    }
  }

  lemma StepKeepsLocks(s: State, a: Action)
    requires Locks(s) && Do(s, a).Some?
    ensures Locks(Do(s, a).value)
  {
    if !a.Call? && !a.Tick? && !a.Update? {
      InsideKeepsLocks(s, a);
    } else {
      var s' := Do(s, a).value;
      forall c <- s'.threads ensures Holds(s', c, s'.threads[c]) {
        assert c in s.threads ==> Holds(s, c, s.threads[c]);
      }
    }
  }

  lemma {:induction false} RunsKeepLocks(s: State, run: seq<Action>)
    requires Locks(s) && Exec(s, run).Some?
    ensures Locks(Exec(s, run).value)
    decreases |run|
  {
    if run != [] {
      StepKeepsLocks(s, run[0]);
      RunsKeepLocks(Do(s, run[0]).value, run[1..]);
    }
  }

  /** Thread `c`, asking for `want`, grants or has granted from a balance of `x`. */
  ghost predicate Sees(s: State, c: nat, want: nat, x: int) {
    && c in s.threads && s.threads[c].want == want
    && match s.threads[c]
       case Granting(i, _) => i < |s.limit.shards| && s.limit.shards[i] == x
       case Comparing(_, _, from, _) => from == x
       case Deducting(_, _, from, _) => from == x
       case Returning(_, _, from, _, _) => from == x
       case Left(_, from, _, _) => from == x
       case _ => false
  }

  lemma StepKeepsSight(s: State, a: Action, c: nat, want: nat, x: int)
    requires Locks(s) && Do(s, a).Some? && Sees(s, c, want, x)
    ensures Sees(Do(s, a).value, c, want, x)
  {
    assert Holds(s, c, s.threads[c]);
    assert !a.Call? && !a.Tick? && !a.Update? ==> Holds(s, a.c, s.threads[a.c]);
  }

  lemma {:induction false} RunsKeepSight(s: State, run: seq<Action>, c: nat, want: nat, x: int)
    requires Locks(s) && Exec(s, run).Some? && Sees(s, c, want, x)
    ensures Sees(Exec(s, run).value, c, want, x)
    decreases |run|
  {
    if run != [] {
      StepKeepsSight(s, run[0], c, want, x);
      StepKeepsLocks(s, run[0]);
      RunsKeepSight(Do(s, run[0]).value, run[1..], c, want, x);
    }
  }

  /** What a refill at time `now` finds in the pool, which starts afresh with every second. */
  function Found(s: State, now: int): int {
    if s.limit.stamp != now then s.limit.burst else s.limit.pool
  }

  /**
   In every run, whatever others do before, in between and afterwards: a call that refills its
   shard grants from an eighth of the burst, or from what it found in the pool if that is less.
   */
  lemma RefilledBalance(rate: int, burst: int, now: int, before: seq<Action>, c: nat, after: seq<Action>)
    requires Exec(Init(rate, burst, now), before).Some?
    requires var s := Exec(Init(rate, burst, now), before).value;
      c in s.threads && s.threads[c].Timed? && Do(s, Refill(c)).Some? && Exec(Do(s, Refill(c)).value, after).Some?
    ensures var s := Exec(Init(rate, burst, now), before).value;
      var found := Found(s, s.threads[c].now);
      Sees(Exec(Do(s, Refill(c)).value, after).value, c, s.threads[c].want,
           if found <= s.limit.burst / 8 then found else s.limit.burst / 8)
  {
    var s := Exec(Init(rate, burst, now), before).value;
    RunsKeepLocks(Init(rate, burst, now), before);
    StepKeepsLocks(s, Refill(c));
    var found := Found(s, s.threads[c].now);
    RunsKeepSight(Do(s, Refill(c)).value, after, c, s.threads[c].want,
                  if found <= s.limit.burst / 8 then found else s.limit.burst / 8);
  }

  /** And a call that finds its shard not empty grants from what it finds there. */
  lemma KeptBalance(rate: int, burst: int, now: int, before: seq<Action>, c: nat, after: seq<Action>)
    requires Exec(Init(rate, burst, now), before).Some?
    requires var s := Exec(Init(rate, burst, now), before).value;
      && c in s.threads && s.threads[c].Looking? && s.threads[c].i < |s.limit.shards|
      && s.limit.shards[s.threads[c].i] > 0
      && Do(s, Look(c)).Some? && Exec(Do(s, Look(c)).value, after).Some?
    ensures var s := Exec(Init(rate, burst, now), before).value;
      Sees(Exec(Do(s, Look(c)).value, after).value, c, s.threads[c].want, s.limit.shards[s.threads[c].i])
  {
    var s := Exec(Init(rate, burst, now), before).value;
    RunsKeepLocks(Init(rate, burst, now), before);
    StepKeepsLocks(s, Look(c));
    RunsKeepSight(Do(s, Look(c)).value, after, c, s.threads[c].want, s.limit.shards[s.threads[c].i]);
  }

  /** The request stays what it was when the call was made. */
  lemma {:induction false} RequestStays(s: State, run: seq<Action>, c: nat)
    requires c in s.threads && Exec(s, run).Some?
    ensures var s' := Exec(s, run).value;
      c in s'.threads && s'.threads[c].want == s.threads[c].want
      && (!s'.threads[c].Left? ==> !s.threads[c].Left? && s'.threads[c].i == s.threads[c].i)
    decreases |run|
  {
    if run != [] {
      RequestStays(Do(s, run[0]).value, run[1..], c);
    }
  }

  function Calls(run: seq<Action>): nat {
    if run == [] then 0 else (if run[0].Call? then 1 else 0) + Calls(run[1..])
  }

  /** The counter wraps around at a multiple of the number of shards. */
  lemma WrapKeepsTurn(n: nat)
    ensures (n + 1) % TWO_TO_THE_64 % 8 == (n + 1) % 8
  {
    var q := (n + 1) / TWO_TO_THE_64;
    assert n + 1 == 8 * (q * 0x2000_0000_0000_0000) + (n + 1) % TWO_TO_THE_64;
  }

  lemma SameTurn(n: nat, k: nat, more: nat)
    requires n % 8 == k % 8
    ensures (n + more) % 8 == (k + more) % 8
  {
    assert n + more == 8 * (n / 8) + (k % 8 + more) && k + more == 8 * (k / 8) + (k % 8 + more);
  }

  lemma CallCounts(s: State, a: Action)
    requires Do(s, a).Some?
    ensures Do(s, a).value.counter % 8 == (s.counter + if a.Call? then 1 else 0) % 8
  {
    WrapKeepsTurn(s.counter);
  }

  lemma {:induction false} CallsAreCounted(s: State, run: seq<Action>)
    requires Exec(s, run).Some?
    ensures Exec(s, run).value.counter % 8 == (s.counter + Calls(run)) % 8
    decreases |run|
  {
    if run != [] {
      var s' := Do(s, run[0]).value;
      CallCounts(s, run[0]);
      CallsAreCounted(s', run[1..]);
      SameTurn(s'.counter, s.counter + if run[0].Call? then 1 else 0, Calls(run[1..]));
    }
  }

  lemma CallDraws(s: State, c: nat, want: nat)
    requires c !in s.threads
    ensures Do(s, Call(c, want)).Some?
    ensures Do(s, Call(c, want)).value.threads[c] == Locking((s.counter + 1) % TWO_TO_THE_64 % 8, want)
  {
  }

  /** The calls of a run take the shards in turn, also when the counter wraps around. */
  lemma ShardsInTurn(rate: int, burst: int, now: int, run: seq<Action>, c: nat, want: nat)
    requires Exec(Init(rate, burst, now), run).Some? && c !in Exec(Init(rate, burst, now), run).value.threads
    ensures var s := Exec(Init(rate, burst, now), run).value;
      && Do(s, Call(c, want)).Some?
      && Do(s, Call(c, want)).value.threads[c] == Locking((Calls(run) + 1) % 8, want)
  {
    var s := Exec(Init(rate, burst, now), run).value;
    CallsAreCounted(Init(rate, burst, now), run);
    CallDraws(s, c, want);
    WrapKeepsTurn(s.counter);
    SameTurn(s.counter, Calls(run), 1);
  }

  // ----- nobody is locked out

  /** A lock that is held is held by a thread inside a call. */
  ghost predicate Inside(s: State, c: nat, i: nat) {
    c in s.threads && !s.threads[c].Left? && !s.threads[c].Locking? && s.threads[c].i == i
  }

  ghost predicate Held(s: State) {
    && (forall i: nat :: i < |s.owners| && s.owners[i].Some? ==> Inside(s, s.owners[i].value, i))
    && (s.poolOwner.Some? ==> s.poolOwner.value in s.threads && s.threads[s.poolOwner.value].Timed?)
    && (forall c <- s.threads :: s.threads[c].Timed? ==> s.poolOwner == Some(c))
  }

  lemma OutsideKeepsHeld(s: State, a: Action)
    requires Held(s) && (a.Call? || a.Tick? || a.Update?) && Do(s, a).Some?
    ensures Held(Do(s, a).value)
  {
    var s' := Do(s, a).value;
    forall i: nat | i < |s'.owners| && s'.owners[i].Some? ensures Inside(s', s'.owners[i].value, i) {
      assert Inside(s, s.owners[i].value, i);
    }
  }

  lemma PrepareKeepsHeld(s: State, a: Action)
    requires a.LockShard? || a.Look? || a.LockPool? || a.Refill?
    requires Locks(s) && Held(s) && Do(s, a).Some?
    ensures Held(Do(s, a).value)
  {
    var s' := Do(s, a).value;
    assert Holds(s, a.c, s.threads[a.c]);
    forall i: nat | i < |s'.owners| && s'.owners[i].Some? ensures Inside(s', s'.owners[i].value, i) {
      assert s.owners[i].Some? ==> Inside(s, s.owners[i].value, i);
    }
  }

  lemma GrantKeepsHeld(s: State, a: Action)
    requires a.CompareBalance? || a.CompareRequest? || a.Deduct? || a.Return?
    requires Locks(s) && Held(s) && Do(s, a).Some?
    ensures Held(Do(s, a).value)
  {
    var s' := Do(s, a).value;
    assert Holds(s, a.c, s.threads[a.c]);
    forall i: nat | i < |s'.owners| && s'.owners[i].Some? ensures Inside(s', s'.owners[i].value, i) {
      assert Inside(s, s.owners[i].value, i);
    }
  }

  lemma StepKeepsHeld(s: State, a: Action)
    requires Locks(s) && Held(s) && Do(s, a).Some?
    ensures Held(Do(s, a).value)
  {
    if a.LockShard? || a.Look? || a.LockPool? || a.Refill? {
      PrepareKeepsHeld(s, a);
    } else if a.Call? || a.Tick? || a.Update? {
      OutsideKeepsHeld(s, a);
    } else {
      GrantKeepsHeld(s, a);
    }
  }

  lemma {:induction false} RunsKeepHeld(s: State, run: seq<Action>)
    requires Locks(s) && Held(s) && Exec(s, run).Some?
    ensures Locks(Exec(s, run).value) && Held(Exec(s, run).value)
    decreases |run|
  {
    if run != [] {
      StepKeepsHeld(s, run[0]);
      StepKeepsLocks(s, run[0]);
      RunsKeepHeld(Do(s, run[0]).value, run[1..]);
    }
  }

  /** The next step of a thread inside a call. */
  function NextStep(c: nat, t: Thread): Action
    requires !t.Left?
  {
    match t
    case Locking(_, _) => LockShard(c)
    case Looking(_, _) => Look(c)
    case Refilling(_, _) => LockPool(c)
    case Timed(_, _, _) => Refill(c)
    case Granting(_, _) => CompareBalance(c)
    case Comparing(_, _, _, _) => CompareRequest(c)
    case Deducting(_, _, _, _) => Deduct(c)
    case Returning(_, _, _, _, _) => Return(c)
  }

  /** A thread inside a call can go on, unless it waits for a lock that another thread holds. */
  lemma GoesOnUnlessLocked(s: State, c: nat)
    requires Locks(s) && c in s.threads && !s.threads[c].Left?
    ensures Do(s, NextStep(c, s.threads[c])).Some? <==>
      && (s.threads[c].Locking? ==> s.owners[s.threads[c].i].None?)
      && (s.threads[c].Refilling? ==> s.poolOwner.None?)
  {
    assert Holds(s, c, s.threads[c]);
  }

  /** In every run: while some thread is inside a call, one of them can go on; the two locks never block each other. */
  lemma NeverDeadlocked(rate: int, burst: int, now: int, run: seq<Action>, c: nat) returns (d: nat)
    requires Exec(Init(rate, burst, now), run).Some?
    requires var s := Exec(Init(rate, burst, now), run).value; c in s.threads && !s.threads[c].Left?
    ensures var s := Exec(Init(rate, burst, now), run).value;
      d in s.threads && !s.threads[d].Left? && Do(s, NextStep(d, s.threads[d])).Some?
  {
    var s := Exec(Init(rate, burst, now), run).value;
    RunsKeepHeld(Init(rate, burst, now), run);
    d := c;
    assert Holds(s, c, s.threads[c]);
    if s.threads[d].Locking? && s.owners[s.threads[d].i].Some? {
      d := s.owners[s.threads[d].i].value;
      assert Inside(s, d, s.threads[c].i) && Holds(s, d, s.threads[d]);
    }
    if s.threads[d].Refilling? && s.poolOwner.Some? {
      d := s.poolOwner.value;
      assert Holds(s, d, s.threads[d]);
    }
    GoesOnUnlessLocked(s, d);
  }

  // ----- the clock

  function Seconds(run: seq<Action>): nat {
    if run == [] then 0 else (if run[0].Tick? then run[0].seconds else 0) + Seconds(run[1..])
  }

  lemma {:induction false} ClockTicks(s: State, run: seq<Action>)
    requires Exec(s, run).Some?
    ensures Exec(s, run).value.clock == s.clock + Seconds(run)
    decreases |run|
  {
    if run != [] {
      ClockTicks(Do(s, run[0]).value, run[1..]);
    }
  }

  /** In every run: the clock shows the start and the seconds since, and a refill goes by what it shows. */
  lemma RefillsByTheClock(rate: int, burst: int, now: int, run: seq<Action>, c: nat)
    requires Exec(Init(rate, burst, now), run).Some?
    ensures var s := Exec(Init(rate, burst, now), run).value;
      && s.clock == now + Seconds(run)
      && (Do(s, LockPool(c)).Some? ==>
            Do(s, LockPool(c)).value.threads[c] == Timed(s.threads[c].i, s.threads[c].want, s.clock))
  {
    ClockTicks(Init(rate, burst, now), run);
  }
}
