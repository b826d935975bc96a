/** What the limiter of server/flow_limit.go grants in one second while its parameters stay as they are. */
module FlowLimitBound {
  import opened Prelude
  import opened FlowLimit
  import opened FlowLimitGrants
  import opened FlowLimitRuns
  import opened Sums

  /** A thread is about to refill with a time that has passed. */
  ghost predicate Stale(s: State) {
    s.poolOwner.Some? && s.poolOwner.value in s.threads
    && s.threads[s.poolOwner.value].Timed? && s.threads[s.poolOwner.value].now < s.clock
  }

  /** What can still come out of the pool in this second. */
  ghost function PoolNow(s: State): int {
    if s.limit.stamp == s.clock then s.limit.pool else s.limit.burst
  }

  /** An upper bound on what can still be granted in this second. */
  ghost function Ahead(s: State): int {
    Sum(s.accounts) + PoolNow(s) + if Stale(s) then s.limit.maxFlow else 0
  }

  ghost predicate WithinMax(s: State) {
    forall i :: 0 <= i < |s.accounts| ==> s.accounts[i] <= s.limit.maxFlow
  }

  ghost predicate Bounded(s: State) {
    && s.limit.pool <= s.limit.burst
    && WithinMax(s)
    && s.grantedNow + Ahead(s) <= 2 * s.limit.burst
    && (s.poolOwner.Some? ==> s.poolOwner.value in s.threads && s.threads[s.poolOwner.value].Timed?)
  }

  /** The shards together never hold more than the burst, also when an empty one is about to be filled. */
  lemma ShardsWithinBurst(s: State)
    requires Inv(s) && WithinMax(s)
    ensures Sum(s.accounts) + (if Stale(s) then s.limit.maxFlow else 0) <= s.limit.burst
  {
    var l := s.limit;
    if Stale(s) {
      var c := s.poolOwner.value;
      assert ThreadOk(s, c, s.threads[c]);
      var i := s.threads[c].i;
      SumOfUpdate(s.accounts, i, l.maxFlow);
      SumAtMost(s.accounts[i := l.maxFlow], l.maxFlow);
    } else {
      SumAtMost(s.accounts, l.maxFlow);
    }
  }

  lemma TickKeepsBound(s: State, seconds: nat)
    requires Inv(s) && Bounded(s)
    ensures Bounded(Do(s, Tick(seconds)).value)
  {
    var s' := Do(s, Tick(seconds)).value;
    StepKeepsInv(s, Tick(seconds));
    ShardsWithinBurst(s');
  }

  lemma RefillKeepsBound(s: State, c: nat)
    requires Inv(s) && Bounded(s) && Do(s, Refill(c)).Some?
    ensures Bounded(Do(s, Refill(c)).value)
  {
    var t := s.threads[c];
    assert ThreadOk(s, c, t);
    if PoolAt(s.limit, t.now) == 0 {
      RefusalKeepsBound(s, c);
    } else {
      var part := Min(PoolAt(s.limit, t.now), s.limit.maxFlow);
      SumOfUpdate(s.accounts, t.i, part);
      var s' := Do(s, Refill(c)).value;
      assert s'.accounts == s.accounts[t.i := part] && !Stale(s');
    }
  }

  lemma RefusalKeepsBound(s: State, c: nat)
    requires Inv(s) && Bounded(s) && c in s.threads && s.threads[c].Timed? && InRange(s, s.threads[c])
    requires PoolAt(s.limit, s.threads[c].now) == 0
    ensures Bounded(Do(s, Refill(c)).value)
  {
    var t := s.threads[c];
    assert ThreadOk(s, c, t);
    SumOfUpdate(s.accounts, t.i, 0);
  }

  /** A grant takes from the books of its shard exactly what it returns. */
  lemma LeaveKeepsBound(s: State, c: nat, i: nat, d: int, t': Thread)
    requires Inv(s) && Bounded(s) && i < SHARDS && c in s.threads && !s.threads[c].Timed?
    requires t'.Left? && t'.grant == d + s.accounts[i] - s.limit.shards[i] >= 0
    ensures Bounded(Leave(Deducted(s, i, d), c, i, t'))
  {
    SumOfUpdate(s.accounts, i, s.limit.shards[i] - d);
    var s' := Leave(Deducted(s, i, d), c, i, t');
    assert ThreadOk(s, c, s.threads[c]);
    assert s.poolOwner != Some(c);
    assert Stale(s') <==> Stale(s);
  }

  /** A thread that goes on without touching any number. */
  lemma MoveKeepsBound(s: State, c: nat, t: Thread)
    requires Inv(s) && Bounded(s) && c in s.threads && !s.threads[c].Timed?
    ensures Bounded(Move(s, c, t))
  {
    assert ThreadOk(s, c, s.threads[c]);
    assert s.poolOwner != Some(c);
  }

  lemma CompareBalanceKeepsBound(s: State, c: nat)
    requires Inv(s) && Bounded(s) && Do(s, CompareBalance(c)).Some?
    ensures Bounded(Do(s, CompareBalance(c)).value)
  {
    var t := s.threads[c];
    assert ThreadOk(s, c, t);
    if s.limit.rate < s.limit.shards[t.i] {
      MoveKeepsBound(s, c, Comparing(t.i, t.want, s.limit.shards[t.i], s.limit.rate));
    } else {
      var g := Min(t.want, s.limit.shards[t.i]);
      LeaveKeepsBound(s, c, t.i, g, Left(t.want, s.limit.shards[t.i], s.limit.rate, g));
    }
  }

  lemma CompareRequestKeepsBound(s: State, c: nat)
    requires Inv(s) && Bounded(s) && Do(s, CompareRequest(c)).Some?
    ensures Bounded(Do(s, CompareRequest(c)).value)
  {
    var t := s.threads[c];
    assert ThreadOk(s, c, t);
    if s.limit.rate < t.want {
      MoveKeepsBound(s, c, Deducting(t.i, t.want, t.from, t.rate));
    } else {
      LeaveKeepsBound(s, c, t.i, t.want, Left(t.want, t.from, t.rate, t.want));
    }
  }

  lemma ReturnKeepsBound(s: State, c: nat)
    requires Inv(s) && Bounded(s) && Do(s, Return(c)).Some?
    ensures Bounded(Do(s, Return(c)).value)
  {
    var t := s.threads[c];
    assert ThreadOk(s, c, t);
    assert Deducted(s, t.i, 0) == s;
    LeaveKeepsBound(s, c, t.i, 0, Left(t.want, t.from, t.rate, s.limit.rate));
  }

  lemma DeductKeepsBound(s: State, c: nat)
    requires Inv(s) && Bounded(s) && Do(s, Deduct(c)).Some?
    ensures Bounded(Do(s, Deduct(c)).value)
  {
    assert ThreadOk(s, c, s.threads[c]);
    assert s.poolOwner != Some(c);
  }

  lemma StepKeepsBound(s: State, a: Action)
    requires Inv(s) && Bounded(s) && !a.Update? && Do(s, a).Some?
    ensures Bounded(Do(s, a).value)
  {
    if a.Tick? {
      TickKeepsBound(s, a.seconds);
    } else if a.Refill? {
      RefillKeepsBound(s, a.c);
    } else if a.CompareBalance? {
      CompareBalanceKeepsBound(s, a.c);
    } else if a.CompareRequest? {
      CompareRequestKeepsBound(s, a.c);
    } else if a.Deduct? {
      DeductKeepsBound(s, a.c);
    } else if a.Return? {
      ReturnKeepsBound(s, a.c);
    }
  }

  lemma StepKeepsBurst(s: State, a: Action)
    requires !a.Update? && Do(s, a).Some?
    ensures Do(s, a).value.limit.burst == s.limit.burst
  {
  }

  /** Everything that a step with fixed parameters keeps. */
  lemma FixedStep(s: State, a: Action)
    requires Inv(s) && Bounded(s) && !a.Update? && Do(s, a).Some?
    ensures var s' := Do(s, a).value; Inv(s') && Bounded(s') && s'.limit.burst == s.limit.burst
  {
    StepKeepsInv(s, a);
    StepKeepsBound(s, a);
    StepKeepsBurst(s, a);
  }

  lemma {:induction false} RunsKeepBound(s: State, run: seq<Action>)
    requires Inv(s) && Bounded(s) && ParametersFixed(run) && Exec(s, run).Some?
    ensures Inv(Exec(s, run).value) && Bounded(Exec(s, run).value)
    ensures Exec(s, run).value.limit.burst == s.limit.burst
    decreases |run|
  {
    if run != [] {
      FixedStep(s, run[0]);
      RunsKeepBound(Do(s, run[0]).value, run[1..]);
    }
  }

  lemma StartIsBounded(rate: int, burst: int, now: int)
    ensures Inv(Init(rate, burst, now)) && Bounded(Init(rate, burst, now))
  {
    var l := Fresh(rate, burst, now);
    StartKeepsInv(rate, burst, now);
    SumAtMost(l.shards, l.maxFlow);
    SumIsNatural(l.shards);
  }

  /** With fixed parameters, no second ever sees grants of more than twice the burst. */
  lemma GrantsPerSecond(rate: int, burst: int, now: int, run: seq<Action>)
    requires ParametersFixed(run) && Exec(Init(rate, burst, now), run).Some?
    ensures Exec(Init(rate, burst, now), run).value.grantedNow <= 2 * OrDefault(burst, DEFAULT_BURST)
  {
    StartIsBounded(rate, burst, now);
    RunsKeepBound(Init(rate, burst, now), run);
    var s := Exec(Init(rate, burst, now), run).value;
    forall i: nat | i < SHARDS ensures s.accounts[i] >= 0 {
      if s.owners[i].Some? {
        assert ThreadOk(s, s.owners[i].value, s.threads[s.owners[i].value]);
      }
    }
    SumIsNatural(s.accounts);
  }

  /** A share of nothing leaves nothing to grant. */
  lemma StepGrantsNothing(s: State, a: Action)
    requires Inv(s) && Bounded(s) && s.limit.burst < SHARDS && !a.Update? && Do(s, a).Some?
    ensures Do(s, a).value.granted == s.granted
  {
    if a.CompareBalance? || a.CompareRequest? || a.Deduct? || a.Return? {
      var t := s.threads[a.c];
      assert ThreadOk(s, a.c, t);
      assert s.limit.maxFlow == 0 && s.accounts[t.i] <= 0;
    }
  }

  lemma {:induction false} NothingFromTinyBurst(s: State, run: seq<Action>)
    requires Inv(s) && Bounded(s) && s.limit.burst < SHARDS
    requires ParametersFixed(run) && Exec(s, run).Some?
    ensures Exec(s, run).value.granted == s.granted
    decreases |run|
  {
    if run != [] {
      FixedStep(s, run[0]);
      StepGrantsNothing(s, run[0]);
      NothingFromTinyBurst(Do(s, run[0]).value, run[1..]);
    }
  }

  /** The first call for one byte gets it if the shards have any. */
  lemma FirstGrant(rate: int, burst: int, now: int) returns (run: seq<Action>)
    requires OrDefault(burst, DEFAULT_BURST) >= SHARDS
    ensures ParametersFixed(run) && Exec(Init(rate, burst, now), run).Some?
    ensures Exec(Init(rate, burst, now), run).value.granted == 1
  {
    var s0 := Init(rate, burst, now);
    run := [Call(0, 1)];
    Extend(s0, [], Call(0, 1));
    assert [] + [Call(0, 1)] == run;
    Extend(s0, run, LockShard(0));
    run := run + [LockShard(0)];
    Extend(s0, run, Look(0));
    run := run + [Look(0)];
    var s3 := Exec(s0, run).value;
    assert s3.threads[0] == Granting(1, 1) && s3.limit == s0.limit;
    Extend(s0, run, CompareBalance(0));
    run := run + [CompareBalance(0)];
    if s3.limit.rate < s3.limit.shards[1] {
      Extend(s0, run, CompareRequest(0));
      run := run + [CompareRequest(0)];
    }
  }

  /** With fixed parameters something is granted in some run if and only if the burst is at least eight bytes. */
  lemma GrantsSomethingIff(rate: int, burst: int, now: int)
    ensures (exists run :: ParametersFixed(run) && Exec(Init(rate, burst, now), run).Some?
                           && Exec(Init(rate, burst, now), run).value.granted >= 1)
            <==> OrDefault(burst, DEFAULT_BURST) >= SHARDS
  {
    if OrDefault(burst, DEFAULT_BURST) >= SHARDS {
      var run := FirstGrant(rate, burst, now);
    } else {
      StartIsBounded(rate, burst, now);
      forall run | ParametersFixed(run) && Exec(Init(rate, burst, now), run).Some?
        ensures Exec(Init(rate, burst, now), run).value.granted == 0
      {
        NothingFromTinyBurst(Init(rate, burst, now), run);
      }
    }
  }
}
