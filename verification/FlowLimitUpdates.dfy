/**
 When the parameters of the limiter of server/flow_limit.go change in the middle of a grant: the
 exact condition under which the books still balance, no shard is overdrawn and no call gets more
 than it asked for, and three runs in which that fails.
 */
module FlowLimitUpdates {
  import opened Prelude
  import opened FlowLimit
  import opened FlowLimitRuns
  import opened Sums

  /** The next rate read of a grant in progress. */
  function GrantStep(s: State, c: nat): State {
    if c !in s.threads || !InRange(s, s.threads[c]) then s
    else match s.threads[c]
      case Granting(_, _) => DoGrant(s, CompareBalance(c)).value
      case Comparing(_, _, _, _) => DoGrant(s, CompareRequest(c)).value
      case Deducting(_, _, _, _) => DoGrant(s, Deduct(c)).value
      case Returning(_, _, _, _, _) => DoGrant(s, Return(c)).value
      case _ => s
  }

  /** What becomes of the state if `c` goes on alone until its grant is complete. */
  function Completed(s: State, c: nat): State {
    GrantStep(GrantStep(GrantStep(GrantStep(s, c), c), c), c)
  }

  lemma GrantStepKeepsInv(s: State, c: nat)
    requires Inv(s)
    ensures Inv(GrantStep(s, c))
  {
    if c in s.threads {
      match s.threads[c]
      case Granting(_, _) => StepKeepsInv(s, CompareBalance(c));
      case Comparing(_, _, _, _) => StepKeepsInv(s, CompareRequest(c));
      case Deducting(_, _, _, _) => StepKeepsInv(s, Deduct(c));
      case Returning(_, _, _, _, _) => StepKeepsInv(s, Return(c));
      case _ =>
    }
  }

  lemma CompletedKeepsInv(s: State, c: nat)
    requires Inv(s)
    ensures Inv(Completed(s, c))
  {
    var s1 := GrantStep(s, c);
    var s2 := GrantStep(s1, c);
    var s3 := GrantStep(s2, c);
    GrantStepKeepsInv(s, c);
    GrantStepKeepsInv(s1, c);
    GrantStepKeepsInv(s2, c);
    GrantStepKeepsInv(s3, c);
  }

  lemma LeftStays(s: State, c: nat)
    requires c in s.threads && s.threads[c].Left?
    ensures GrantStep(s, c) == s && Completed(s, c) == s
  {
  }

  /** How thread `c` leaves if it returns `grant`. */
  function LeftWith(t: Thread, grant: int): Thread
    requires t.Comparing? || t.Deducting? || t.Returning?
  {
    Left(t.want, t.from, t.rate, grant)
  }

  lemma CompletedReturning(s: State, c: nat)
    requires c in s.threads && s.threads[c].Returning? && InRange(s, s.threads[c])
    ensures var t := s.threads[c]; Completed(s, c) == Leave(s, c, t.i, LeftWith(t, s.limit.rate))
  {
    LeftStays(GrantStep(s, c), c);
  }

  lemma CompletedDeducting(s: State, c: nat)
    requires c in s.threads && s.threads[c].Deducting? && InRange(s, s.threads[c])
    ensures var t, rate := s.threads[c], s.limit.rate;
      Completed(s, c) == Leave(Deducted(s, t.i, rate), c, t.i, LeftWith(t, rate))
  {
    var t, rate := s.threads[c], s.limit.rate;
    var s1 := GrantStep(s, c);
    CompletedReturning(s1, c);
    assert GrantStep(s1, c).threads == Leave(Deducted(s, t.i, rate), c, t.i, LeftWith(t, rate)).threads;
    LeftStays(GrantStep(s1, c), c);
  }

  lemma CompletedComparing(s: State, c: nat)
    requires c in s.threads && s.threads[c].Comparing? && InRange(s, s.threads[c])
    ensures var t := s.threads[c]; var g := Min(t.want, s.limit.rate);
      Completed(s, c) == Leave(Deducted(s, t.i, g), c, t.i, LeftWith(t, g))
  {
    var t := s.threads[c];
    var s1 := GrantStep(s, c);
    if s.limit.rate < t.want {
      CompletedDeducting(s1, c);
      var g := s.limit.rate;
      assert Completed(s1, c).threads == Leave(Deducted(s, t.i, g), c, t.i, LeftWith(t, g)).threads;
      LeftStays(GrantStep(GrantStep(s1, c), c), c);
    } else {
      LeftStays(s1, c);
    }
  }

  lemma CompletedRich(s: State, c: nat)
    requires c in s.threads && s.threads[c].Granting? && InRange(s, s.threads[c])
    requires s.limit.rate < s.limit.shards[s.threads[c].i]
    ensures var t := s.threads[c]; var g := Min(t.want, s.limit.rate);
      Completed(s, c) == Leave(Deducted(s, t.i, g), c, t.i, Left(t.want, s.limit.shards[t.i], s.limit.rate, g))
  {
    var t := s.threads[c];
    var s1 := Move(s, c, Comparing(t.i, t.want, s.limit.shards[t.i], s.limit.rate));
    assert GrantStep(s, c) == s1;
    CompletedComparing(s1, c);
    var g := Min(t.want, s.limit.rate);
    var s2 := Leave(Deducted(s, t.i, g), c, t.i, Left(t.want, s.limit.shards[t.i], s.limit.rate, g));
    assert Completed(s1, c).threads == s2.threads;
    LeftStays(GrantStep(GrantStep(GrantStep(s1, c), c), c), c);
  }

  lemma CompletedGranting(s: State, c: nat)
    requires c in s.threads && s.threads[c].Granting? && InRange(s, s.threads[c])
    ensures var t := s.threads[c]; var g := GrantOf(s.limit, t.i, t.want);
      Completed(s, c) == Leave(Deducted(s, t.i, g), c, t.i, Left(t.want, s.limit.shards[t.i], s.limit.rate, g))
  {
    if s.limit.rate < s.limit.shards[s.threads[c].i] {
      CompletedRich(s, c);
    } else {
      LeftStays(GrantStep(s, c), c);
    }
  }

  /** After taking `d` more from shard `i` and leaving as `t'`, all is right exactly if `t'` returns what was taken, the
      shard had it, and it is no more than was asked for. */
  lemma LeaveRight(s: State, c: nat, i: nat, d: int, t': Thread)
    requires |s.owners| == |s.accounts| == |s.limit.shards| && i < |s.accounts| && Right(s) && t'.Left?
    ensures Right(Leave(Deducted(s, i, d), c, i, t')) <==>
            t'.grant == d + s.accounts[i] - s.limit.shards[i] && d <= s.limit.shards[i] && Modest(t')
  {
    SumOfUpdate(s.accounts, i, s.limit.shards[i] - d);
    var s' := Leave(Deducted(s, i, d), c, i, t');
    assert s'.limit.shards[i] == s.limit.shards[i] - d && s'.threads[c] == t';
  }

  lemma UpdateKeepsRight(s: State, rate: int, burst: int)
    requires Inv(s) && s.poolOwner.None?
    ensures Right(Do(s, Update(rate, burst)).value)
  {
    forall c <- s.threads ensures Modest(s.threads[c]) { assert ThreadOk(s, c, s.threads[c]); }
  }

  /** The first two reads of the rate decide on the request and the balance. */
  lemma EarlyGrantRight(s: State, c: nat)
    requires Right(s) && Shaped(s) && c in s.threads && InRange(s, s.threads[c]) && s.threads[c].i < SHARDS
    requires s.threads[c].Granting? || s.threads[c].Comparing?
    requires s.accounts[s.threads[c].i] == s.limit.shards[s.threads[c].i]
    requires s.threads[c].Comparing? ==> s.threads[c].from == s.accounts[s.threads[c].i]
    ensures Right(Completed(s, c)) <==> Harmless(s.threads[c], s.limit.shards[s.threads[c].i], s.limit.rate)
  {
    var t := s.threads[c];
    if t.Granting? {
      CompletedGranting(s, c);
      var g := GrantOf(s.limit, t.i, t.want);
      LeaveRight(s, c, t.i, g, Left(t.want, s.limit.shards[t.i], s.limit.rate, g));
    } else {
      CompletedComparing(s, c);
      var g := Min(t.want, s.limit.rate);
      LeaveRight(s, c, t.i, g, LeftWith(t, g));
    }
  }

  /** The last two reads deduct and return what they see. */
  lemma LateGrantRight(s: State, c: nat)
    requires Right(s) && Shaped(s) && c in s.threads && InRange(s, s.threads[c]) && s.threads[c].i < SHARDS
    requires s.threads[c].Deducting? || s.threads[c].Returning?
    requires var t := s.threads[c];
      t.from == s.accounts[t.i] == s.limit.shards[t.i] + if t.Returning? then t.paid else 0
    ensures Right(Completed(s, c)) <==> Harmless(s.threads[c], s.limit.shards[s.threads[c].i], s.limit.rate)
  {
    var t := s.threads[c];
    if t.Deducting? {
      CompletedDeducting(s, c);
      LeaveRight(s, c, t.i, s.limit.rate, LeftWith(t, s.limit.rate));
    } else {
      assert Modest(t);
      CompletedReturning(s, c);
      assert Deducted(s, t.i, 0) == s;
      LeaveRight(s, c, t.i, 0, LeftWith(t, s.limit.rate));
    }
  }

  /**
   An update of the parameters in the middle of a grant: the grant still ends with balanced books,
   no overdraft and no more than was asked for, exactly if the new rate is harmless at the point
   the grant has reached.
   */
  lemma UpdateHarmlessIff(s: State, rate: int, burst: int, c: nat)
    requires Inv(s) && s.poolOwner.None? && c in s.threads && InRange(s, s.threads[c])
    ensures Harmless(s.threads[c], s.limit.shards[s.threads[c].i], OrDefault(rate, DEFAULT_RATE)) <==>
            Right(Completed(Do(s, Update(rate, burst)).value, c))
  {
    var t, s1 := s.threads[c], Do(s, Update(rate, burst)).value;
    assert ThreadOk(s, c, t);
    UpdateKeepsRight(s, rate, burst);
    if t.Granting? || t.Comparing? {
      EarlyGrantRight(s1, c);
    } else if t.Deducting? || t.Returning? {
      LateGrantRight(s1, c);
    }
  }

  /** Letting any one thread complete its grant leaves everything right. */
  ghost predicate Recovers(s: State) {
    forall c <- s.threads :: Right(Completed(s, c))
  }

  ghost predicate AlwaysRecovers(s: State, run: seq<Action>)
    requires Exec(s, run).Some?
    decreases |run|
  {
    Recovers(s) && (run != [] ==> AlwaysRecovers(Do(s, run[0]).value, run[1..]))
  }

  lemma InvIsRight(s: State)
    requires Inv(s)
    ensures Right(s)
  {
    forall c <- s.threads ensures Modest(s.threads[c]) { assert ThreadOk(s, c, s.threads[c]); }
  }

  lemma InvRecovers(s: State)
    requires Inv(s)
    ensures Recovers(s)
  {
    forall c <- s.threads ensures Right(Completed(s, c)) {
      CompletedKeepsInv(s, c);
      InvIsRight(Completed(s, c));
    }
  }

  lemma HarmfulUpdateShows(s: State, rate: int, burst: int)
    requires Inv(s) && s.poolOwner.None? && !UpdateHarmless(s, rate)
    ensures !Recovers(Do(s, Update(rate, burst)).value)
  {
    var c :| c in s.threads && InRange(s, s.threads[c])
      && !Harmless(s.threads[c], s.limit.shards[s.threads[c].i], OrDefault(rate, DEFAULT_RATE));
    UpdateHarmlessIff(s, rate, burst, c);
  }

  /**
   The exact condition, for every run: wherever it is stopped, any grant in progress can complete
   with balanced books, no overdraft and no more than was asked for, if and only if every update
   comes when it is harmless.
   */
  lemma {:induction false} RightIffCareful(s: State, run: seq<Action>)
    requires Inv(s) && Exec(s, run).Some?
    ensures Careful(s, run) <==> AlwaysRecovers(s, run)
    decreases |run|
  {
    InvRecovers(s);
    if run != [] {
      var a := run[0];
      if a.Update? && !UpdateHarmless(s, a.rate) {
        HarmfulUpdateShows(s, a.rate, a.burst);
      } else {
        StepKeepsInv(s, a);
        RightIffCareful(Do(s, a).value, run[1..]);
      }
    }
  }

  // ----- three runs with an update in the middle of a grant

  lemma ExtendTwice(s: State, run: seq<Action>, a: Action, b: Action, s1: State, s2: State)
    requires Exec(s, run).Some? && Do(Exec(s, run).value, a) == Some(s1) && Do(s1, b) == Some(s2)
    ensures Exec(s, run + [a] + [b]) == Some(s2)
  {
    Extend(s, run, a);
    Extend(s, run + [a], b);
  }

  /** The first call of all has seen a rate of 5 below its balance of 10. */
  function BegunState(want: nat): State {
    var s := Init(5, 80, 0);
    Move(s, 0, Comparing(1, want, 10, 5)).(counter := 1, owners := s.owners[1 := Some(0)])
  }

  lemma Begun(want: nat) returns (run: seq<Action>)
    ensures Exec(Init(5, 80, 0), run) == Some(BegunState(want)) && run != [] && run[0] == Call(0, want)
  {
    var s0 := Init(5, 80, 0);
    Extend(s0, [], Call(0, want));
    run := [] + [Call(0, want)];
    Extend(s0, run, LockShard(0));
    run := run + [LockShard(0)];
    var s2 := Exec(s0, run).value;
    assert s2.threads[0] == Looking(1, want) && s2.limit.shards[1] == 10;
    Extend(s0, run, Look(0));
    run := run + [Look(0)];
    Extend(s0, run, CompareBalance(0));
    run := run + [CompareBalance(0)];
    assert Exec(s0, run).value.threads == BegunState(want).threads;
  }

  /** Thread 0 asked for `want` and got `grant`, and shard 1 is left with `balance`. */
  ghost predicate EndsWith(s: State, want: nat, grant: int, balance: int) {
    && 0 in s.threads && s.threads[0] == Left(want, 10, 5, grant)
    && 1 < |s.limit.shards| && s.limit.shards[1] == balance
  }

  /** A rate raised between the two comparisons lets a call take 50 bytes from a balance of 10. */
  lemma OverdraftRun() returns (run: seq<Action>)
    ensures Exec(Init(5, 80, 0), run).Some? && EndsWith(Exec(Init(5, 80, 0), run).value, 50, 50, -40)
  {
    var s0 := Init(5, 80, 0);
    run := Begun(50);
    Extend(s0, run, Update(100, 80));
    run := run + [Update(100, 80)];
    Extend(s0, run, CompareRequest(0));
    run := run + [CompareRequest(0)];
  }

  /** The call has seen a rate of 5 below its request too. */
  function PoorState(want: nat): State {
    Move(BegunState(want), 0, Deducting(1, want, 10, 5))
  }

  lemma Poor(want: nat) returns (run: seq<Action>)
    requires want > 5
    ensures Exec(Init(5, 80, 0), run) == Some(PoorState(want)) && run != [] && run[0] == Call(0, want)
  {
    run := Begun(want);
    Extend(Init(5, 80, 0), run, CompareRequest(0));
    run := run + [CompareRequest(0)];
  }

  /** `paid` bytes have been deducted and not yet returned. */
  function PaidState(s: State, want: nat, paid: int): State
    requires 1 < |s.limit.shards|
  {
    Move(Deducted(s, 1, paid), 0, Returning(1, want, 10, 5, paid))
  }

  lemma Pays(s: State, want: nat)
    requires 0 in s.threads && s.threads[0] == Deducting(1, want, 10, 5) && InRange(s, s.threads[0])
    ensures Do(s, Deduct(0)) == Some(PaidState(s, want, s.limit.rate))
  {
  }

  lemma Returns(s: State, want: nat, paid: int)
    requires 0 in s.threads && s.threads[0] == Returning(1, want, 10, 5, paid) && InRange(s, s.threads[0])
    ensures Do(s, Return(0)) == Some(Leave(s, 0, 1, Left(want, 10, 5, s.limit.rate)))
  {
  }

  /** The rate becomes 9 while the call is about to deduct it. */
  function RaisedState(): State {
    PoorState(6).(limit := Updated(PoorState(6).limit, 9, 80), refills := 80, discarded := PoorState(6).limit.pool)
  }

  lemma Raises()
    ensures Do(PoorState(6), Update(9, 80)) == Some(RaisedState())
    ensures var l := RaisedState().limit; l.rate == 9 && |l.shards| == SHARDS && l.shards[1] == 10
  {
  }

  /**
   A rate raised between the second comparison and the deduction, to no more than the balance:
   the books balance and no shard is overdrawn, but a call that asked for 6 bytes gets 9.
   */
  lemma ExcessRun() returns (run: seq<Action>)
    ensures Exec(Init(5, 80, 0), run).Some? && EndsWith(Exec(Init(5, 80, 0), run).value, 6, 9, 1)
    ensures run != [] && run[0] == Call(0, 6)
  {
    run := Poor(6);
    var s, s1 := RaisedState(), PaidState(RaisedState(), 6, 9);
    Raises();
    Pays(s, 6);
    ExtendTwice(Init(5, 80, 0), run, Update(9, 80), Deduct(0), s, s1);
    run := run + [Update(9, 80)] + [Deduct(0)];
    Returns(s1, 6, 9);
    Extend(Init(5, 80, 0), run, Return(0));
    run := run + [Return(0)];
  }

  /** A rate that changes between deduction and return upsets the books. */
  lemma ReturnsTooMuch(s: State, c: nat, rate: int, burst: int)
    requires c in s.threads && s.threads[c].Returning? && InRange(s, s.threads[c]) && s.poolOwner.None? && Balanced(s)
    requires s.accounts[s.threads[c].i] == s.limit.shards[s.threads[c].i] + s.threads[c].paid
    requires rate >= 1 && rate != s.threads[c].paid
    ensures var s1 := Do(s, Update(rate, burst)).value;
      var s2 := Do(s1, Return(c)).value;
      && Do(s1, Return(c)).Some? && !Balanced(s2)
      && c in s2.threads && s2.threads[c] == LeftWith(s.threads[c], rate) && s2.limit.shards == s.limit.shards
  {
    SumOfUpdate(s.accounts, s.threads[c].i, s.limit.shards[s.threads[c].i]);
  }

  lemma PaidIsBalanced()
    ensures var s := PaidState(PoorState(50), 50, 5); Balanced(s) && s.poolOwner.None?
  {
    assert PaidState(PoorState(50), 50, 5).accounts == Init(5, 80, 0).limit.shards;
  }

  lemma Paid() returns (run: seq<Action>)
    ensures Exec(Init(5, 80, 0), run) == Some(PaidState(PoorState(50), 50, 5))
  {
    run := Poor(50);
    Pays(PoorState(50), 50);
    Extend(Init(5, 80, 0), run, Deduct(0));
    run := run + [Deduct(0)];
  }

  /** A rate raised between deduction and return: 5 bytes are deducted and 100 are granted, for a request of 50. */
  lemma SkewedRun() returns (run: seq<Action>)
    ensures Exec(Init(5, 80, 0), run).Some?
    ensures EndsWith(Exec(Init(5, 80, 0), run).value, 50, 100, 5) && !Balanced(Exec(Init(5, 80, 0), run).value)
  {
    run := Paid();
    var s := PaidState(PoorState(50), 50, 5);
    assert s.limit.shards[1] == 5 && s.accounts[1] == 10;
    PaidIsBalanced();
    ReturnsTooMuch(s, 0, 100, 80);
    var s1 := Do(s, Update(100, 80)).value;
    var s2 := Do(s1, Return(0)).value;
    ExtendTwice(Init(5, 80, 0), run, Update(100, 80), Return(0), s1, s2);
    run := run + [Update(100, 80)] + [Return(0)];
  }
}
