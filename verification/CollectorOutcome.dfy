/**
 What a run of the result collector of utils/taskRunManager/chanTask.go comes to, in terms of what
 its tasks returned: how many results arrive and whose, when the others are told to stop, and when
 the channel is closed before the last task has ended.
 */
module CollectorOutcome {
  import opened Prelude
  import opened ResultCollector

  // ----- what the tasks returned

  /** The results that the task functions return in a run, by task. */
  function Returned<V>(before: map<nat, V>, run: seq<Action<V>>): map<nat, V>
    decreases |run|
  {
    if run == [] then before
    else
      var a := run[0];
      Returned(if a.Return? && a.r.Some? then before[a.i := a.r.value] else before, run[1..])
  }

  predicate CancelsParent<V>(run: seq<Action<V>>) {
    exists j :: 0 <= j < |run| && run[j].CancelParent?
  }

  /** What a step of a task does to what the tasks returned, to the contexts and to the channel. */
  ghost predicate Recorded<V>(s: State<V>, s': State<V>, a: Action<V>)
    requires IsWorkerAction(a)
  {
    && s'.results == (if a.Return? && a.r.Some? then s.results[a.i := a.r.value] else s.results)
    && s'.parent == s.parent && s'.main == s.main && s'.n == s.n
    && (s'.ctx <==> s.ctx || a.Lose? || a.Win?)
    && (s'.closed <==> s.closed || a.Shut?)
    && s'.tried == (if a.Claim? then s.tried + {a.i} else s.tried)
    && (!a.Claim? ==> s'.claimed == s.claimed)
    && s'.entered == (if a.Count? then s.entered + {a.i} else s.entered)
    && |s'.workers| == |s.workers|
    && (forall j: nat :: j < |s.workers| && j != a.i ==> s'.workers[j] == s.workers[j])
  }

  lemma EarlyStepRecords<V>(s: State<V>, a: Action<V>)
    requires (a.Return? || a.Look? || a.Lose?) && DoWorker(s, a).Some?
    ensures Recorded(s, DoWorker(s, a).value, a)
  {
  }

  lemma ClaimRecords<V>(s: State<V>, a: Action<V>)
    requires a.Claim? && DoWorker(s, a).Some?
    ensures Recorded(s, DoWorker(s, a).value, a)
  {
  }

  lemma SendRecords<V>(s: State<V>, a: Action<V>)
    requires a.Send? && DoWorker(s, a).Some?
    ensures Recorded(s, DoWorker(s, a).value, a)
  {
  }

  lemma CountRecords<V>(s: State<V>, a: Action<V>)
    requires a.Count? && DoWorker(s, a).Some?
    ensures Recorded(s, DoWorker(s, a).value, a)
  {
  }

  lemma LateStepRecords<V>(s: State<V>, a: Action<V>)
    requires (a.Win? || a.Shut? || a.Free? || a.Sign?) && DoWorker(s, a).Some?
    ensures Recorded(s, DoWorker(s, a).value, a)
  {
  }

  lemma WorkerRecords<V>(s: State<V>, a: Action<V>)
    requires IsWorkerAction(a) && DoWorker(s, a).Some?
    ensures Recorded(s, DoWorker(s, a).value, a)
  {
    if a.Return? || a.Look? || a.Lose? {
      EarlyStepRecords(s, a);
    } else if a.Claim? {
      ClaimRecords(s, a);
    } else if a.Send? {
      SendRecords(s, a);
    } else if a.Count? {
      CountRecords(s, a);
    } else {
      LateStepRecords(s, a);
    }
  }

  lemma StepRecords<V>(s: State<V>, a: Action<V>)
    requires Do(s, a).Some?
    ensures var s' := Do(s, a).value;
      && s'.results == (if a.Return? && a.r.Some? then s.results[a.i := a.r.value] else s.results)
      && (s'.parent <==> s.parent || a.CancelParent?)
  {
    if IsWorkerAction(a) {
      WorkerRecords(s, a);
    }
  }

  lemma {:induction false} RunsRecord<V>(s: State<V>, run: seq<Action<V>>)
    requires Exec(s, run).Some?
    ensures Exec(s, run).value.results == Returned(s.results, run)
    ensures Exec(s, run).value.parent ==> s.parent || CancelsParent(run)
    decreases |run|
  {
    if run != [] {
      var a, rest := run[0], run[1..];
      StepRecords(s, a);
      RunsRecord(Do(s, a).value, rest);
      if CancelsParent(rest) {
        var j :| 0 <= j < |rest| && rest[j].CancelParent?;
        assert run[j + 1].CancelParent?;
      }
      assert a.CancelParent? ==> CancelsParent(run);
    }
  }

  /** The task functions that have returned in a run. */
  function Asked<V>(run: seq<Action<V>>): set<nat> {
    set j | 0 <= j < |run| && run[j].Return? :: run[j].i
  }

  /** Exactly the tasks past their function are those whose function has returned. */
  ghost predicate PastCall<V>(s: State<V>, asked: set<nat>) {
    && (forall i <- asked :: i < |s.workers|)
    && (forall i: nat :: i < |s.workers| ==> (i in asked <==> !s.workers[i].Absent? && !s.workers[i].Calling?))
    && (s.main.Acquiring? ==> s.main.k !in asked)
    && (s.main.Spawning? ==> forall i <- asked :: i < s.main.k)
  }

  lemma WorkerMoves<V>(s: State<V>, a: Action<V>)
    requires IsWorkerAction(a) && DoWorker(s, a).Some?
    ensures a.i < |s.workers| && !s.workers[a.i].Absent? && (s.workers[a.i].Calling? <==> a.Return?)
    ensures var w := DoWorker(s, a).value.workers[a.i]; !w.Absent? && !w.Calling?
  {
    WorkerRecords(s, a);
  }

  lemma WorkerKeepsPast<V>(s: State<V>, a: Action<V>, asked: set<nat>)
    requires PastCall(s, asked) && IsWorkerAction(a) && DoWorker(s, a).Some? && Inv(s)
    ensures PastCall(DoWorker(s, a).value, if a.Return? then asked + {a.i} else asked)
  {
    WorkerRecords(s, a);
    WorkerMoves(s, a);
    assert Tracked(s, a.i);
    var s', next := DoWorker(s, a).value, if a.Return? then asked + {a.i} else asked;
    forall i: nat | i < |s'.workers| ensures i in next <==> !s'.workers[i].Absent? && !s'.workers[i].Calling? {
      assert i != a.i ==> s'.workers[i] == s.workers[i];
    }
  }

  lemma MainKeepsPast<V>(s: State<V>, a: Action<V>, asked: set<nat>)
    requires PastCall(s, asked) && IsMainAction(a) && DoMain(s, a).Some? && Inv(s)
    ensures PastCall(DoMain(s, a).value, asked)
  {
    if a.Add? {
      assert Tracked(s, s.main.k);
    } else if a.Acquire? {
      assert Tracked(s, s.main.k);
      forall i <- asked ensures i < s.main.k + 1 {
        assert Tracked(s, i);
      }
    }
  }

  lemma AskedCons<V>(run: seq<Action<V>>)
    requires run != []
    ensures Asked(run) == (if run[0].Return? then {run[0].i} else {}) + Asked(run[1..])
  {
    var rest := run[1..];
    forall i | i in Asked(rest) ensures i in Asked(run) {
      var j :| 0 <= j < |rest| && rest[j].Return? && rest[j].i == i;
      assert run[j + 1].Return?;
    }
    forall i | i in Asked(run) && !(run[0].Return? && run[0].i == i) ensures i in Asked(rest) {
      var j :| 0 <= j < |run| && run[j].Return? && run[j].i == i;
      assert rest[j - 1].Return?;
    }
  }

  lemma AskedFrom<V>(asked: set<nat>, run: seq<Action<V>>)
    ensures run == [] ==> asked + Asked(run) == asked
    ensures run != [] ==>
      (if run[0].Return? then asked + {run[0].i} else asked) + Asked(run[1..]) == asked + Asked(run)
  {
    if run != [] {
      AskedCons(run);
    }
  }

  lemma StepKeepsPast<V>(s: State<V>, a: Action<V>, asked: set<nat>)
    requires PastCall(s, asked) && Inv(s) && Do(s, a).Some?
    ensures PastCall(Do(s, a).value, if a.Return? then asked + {a.i} else asked)
  {
    if IsWorkerAction(a) {
      WorkerKeepsPast(s, a, asked);
    } else if IsMainAction(a) {
      MainKeepsPast(s, a, asked);
    }
  }

  lemma {:induction false} RunsKeepPast<V>(s: State<V>, run: seq<Action<V>>, asked: set<nat>)
    requires PastCall(s, asked) && Inv(s) && Exec(s, run).Some?
    ensures PastCall(Exec(s, run).value, asked + Asked(run))
    decreases |run|
  {
    AskedFrom(asked, run);
    if run != [] {
      var a := run[0];
      StepKeepsPast(s, a, asked);
      StepKeepsInvariant(s, a);
      RunsKeepPast(Do(s, a).value, run[1..], if a.Return? then asked + {a.i} else asked);
    }
  }

  /**
   In every interleaving: when the collector has exited, every task was called and has returned,
   the channel was closed once, and what was sent are results of different tasks, in the order in
   which they were sent; and unless the parent context was cancelled there are as many of them as
   tasks returned a result, up to the number asked for.
   */
  lemma Outcome<V>(n: nat, pool: nat, total: nat, run: seq<Action<V>>)
    requires Exec(Init<V>(n, pool, total), run).Some?
    requires Exec(Init<V>(n, pool, total), run).value.main.Exited?
    ensures var s := Exec(Init<V>(n, pool, total), run).value; var results := Returned(map[], run);
      && (forall i: nat :: i in Asked(run) <==> i < total)
      && s.closed && s.closes == 1
      && (!CancelsParent(run) ==> |s.sent| == if |results| < n then |results| else n)
      && |s.order| == |s.sent|
      && (forall k :: 0 <= k < |s.order| ==> s.order[k] in results && s.sent[k] == results[s.order[k]])
      && (forall j, k :: 0 <= j < k < |s.order| ==> s.order[j] != s.order[k])
  {
    var s0 := Init<V>(n, pool, total);
    var s := Exec(s0, run).value;
    StartKeepsInv<V>(n, pool, total);
    RunsKeepInv(s0, run);
    RunsRecord(s0, run);
    DeliversAllItCan<V>(n, pool, total, run);
    AllAsked(n, pool, total, run);
    assert |s.oks| == |s.results.Keys| == |s.results|;
  }

  lemma AllAsked<V>(n: nat, pool: nat, total: nat, run: seq<Action<V>>)
    requires Exec(Init<V>(n, pool, total), run).Some?
    requires Exec(Init<V>(n, pool, total), run).value.main.Exited?
    ensures forall i: nat :: i in Asked(run) <==> i < total
  {
    var s0 := Init<V>(n, pool, total);
    var s := Exec(s0, run).value;
    StartKeepsInv<V>(n, pool, total);
    RunsKeepInv(s0, run);
    RunsKeepSetting(s0, run);
    RunsKeepPast(s0, run, {});
    assert {} + Asked(run) == Asked(run);
    forall i: nat | i < total ensures i in Asked(run) {
      assert Tracked(s, i);
    }
  }

  // ----- the end is announced early

  /** Some task has counted the last result and is about to cancel the others and close the channel. */
  ghost predicate Closing<V>(s: State<V>) {
    exists i: nat :: i < |s.workers| && (s.workers[i].Winning? || s.workers[i].Shutting?)
  }

  /** A task that came too late for a place tells the others. */
  ghost predicate LosersTell<V>(s: State<V>) {
    s.ctx || forall i <- s.tried :: i in s.claimed || (i < |s.workers| && s.workers[i].Losing?)
  }

  ghost predicate EarlyInv<V>(s: State<V>) {
    && (s.closed ==> s.ctx)
    && (forall i: nat :: i < |s.workers| && s.workers[i].Shutting? ==> s.ctx)
    && (s.main.Closing? || s.main.Exited? ==> s.ctx)
    && (s.n >= 1 && |s.entered| == s.n ==> s.closed || Closing(s))
    && LosersTell(s)
  }

  lemma ClaimTells<V>(s: State<V>, a: Action<V>)
    requires Inv(s) && EarlyInv(s) && a.Claim? && DoWorker(s, a).Some?
    ensures LosersTell(DoWorker(s, a).value)
  {
    var s' := DoWorker(s, a).value;
    ClaimRecords(s, a);
    assert a.i in s'.claimed || s'.workers[a.i].Losing?;
    assert s.claimed <= s'.claimed;
    if !s.ctx {
      forall i <- s'.tried ensures i in s'.claimed || (i < |s'.workers| && s'.workers[i].Losing?) {
        assert i != a.i ==> i in s.tried;
      }
    }
  }

  lemma OthersTell<V>(s: State<V>, a: Action<V>)
    requires Inv(s) && EarlyInv(s) && IsWorkerAction(a) && !a.Claim? && DoWorker(s, a).Some?
    ensures LosersTell(DoWorker(s, a).value)
  {
    var s' := DoWorker(s, a).value;
    WorkerRecords(s, a);
    WorkerMoves(s, a);
    assert Placed(s, a.i);
    if !s'.ctx {
      forall i <- s'.tried ensures i in s'.claimed || (i < |s'.workers| && s'.workers[i].Losing?) {
        assert i in s.tried;
      }
    }
  }

  /** Where the task stands afterwards, if that matters for the end. */
  lemma EndMoves<V>(s: State<V>, a: Action<V>)
    requires IsWorkerAction(a) && DoWorker(s, a).Some?
    ensures var w, w' := s.workers[a.i], DoWorker(s, a).value.workers[a.i];
      && (a.Win? <==> w.Winning?) && (a.Shut? <==> w.Shutting?) && (a.Win? <==> w'.Shutting?)
      && (a.Count? <==> w.Counting?) && (a.Count? && s.enterCount == 1 ==> w'.Winning?)
  {
    WorkerRecords(s, a);
  }

  lemma CountCloses<V>(s: State<V>, a: Action<V>)
    requires Inv(s) && EarlyInv(s) && a.Count? && DoWorker(s, a).Some?
    ensures var s' := DoWorker(s, a).value; s'.n >= 1 && |s'.entered| == s'.n ==> s'.closed || Closing(s')
  {
    var s' := DoWorker(s, a).value;
    CountRecords(s, a);
    EndMoves(s, a);
    assert Placed(s, a.i);
    if s.n >= 1 && |s'.entered| == s.n {
      assert s'.workers[a.i].Winning?;
    }
  }

  lemma OthersClose<V>(s: State<V>, a: Action<V>)
    requires EarlyInv(s) && IsWorkerAction(a) && !a.Count? && DoWorker(s, a).Some?
    ensures var s' := DoWorker(s, a).value; s'.n >= 1 && |s'.entered| == s'.n ==> s'.closed || Closing(s')
  {
    var s' := DoWorker(s, a).value;
    WorkerRecords(s, a);
    EndMoves(s, a);
    if s.n >= 1 && |s.entered| == s.n && !s'.closed {
      var i: nat :| i < |s.workers| && (s.workers[i].Winning? || s.workers[i].Shutting?);
      assert s'.workers[i].Winning? || s'.workers[i].Shutting?;
    }
  }

  lemma WorkerKeepsEarly<V>(s: State<V>, a: Action<V>)
    requires Inv(s) && EarlyInv(s) && IsWorkerAction(a) && DoWorker(s, a).Some?
    ensures EarlyInv(DoWorker(s, a).value)
  {
    WorkerRecords(s, a);
    EndMoves(s, a);
    if a.Count? { CountCloses(s, a); } else { OthersClose(s, a); }
    if a.Claim? { ClaimTells(s, a); } else { OthersTell(s, a); }
  }

  lemma MainKeepsEarly<V>(s: State<V>, a: Action<V>)
    requires Inv(s) && EarlyInv(s) && IsMainAction(a) && DoMain(s, a).Some?
    ensures EarlyInv(DoMain(s, a).value)
  {
    var s' := DoMain(s, a).value;
    if a.Acquire? {
      assert Tracked(s, s.main.k);
    }
    assert forall i: nat :: i < |s.workers| && !s.workers[i].Absent? ==> s'.workers[i] == s.workers[i];
    if Closing(s) {
      var i: nat :| i < |s.workers| && (s.workers[i].Winning? || s.workers[i].Shutting?);
      assert s'.workers[i].Winning? || s'.workers[i].Shutting?;
    }
  }

  lemma {:induction false} RunsKeepEarly<V>(s: State<V>, run: seq<Action<V>>)
    requires Inv(s) && EarlyInv(s) && Exec(s, run).Some?
    ensures EarlyInv(Exec(s, run).value)
    decreases |run|
  {
    if run != [] {
      var a := run[0];
      if IsWorkerAction(a) {
        WorkerKeepsEarly(s, a);
      } else if IsMainAction(a) {
        MainKeepsEarly(s, a);
      } else {
        assert Closing(s) ==> Closing(Do(s, a).value);
      }
      StepKeepsInvariant(s, a);
      RunsKeepEarly(Do(s, a).value, run[1..]);
    }
  }

  /**
   In every interleaving: once as many results are counted as were asked for, the channel is
   closed, or a task is about to cancel the others and close it, whatever tasks are still running.
   It is never closed before the tasks are told to stop, and a task that came too late for a place
   has told them or is about to.
   */
  lemma ClosesEarly<V>(n: nat, pool: nat, total: nat, run: seq<Action<V>>)
    requires Exec(Init<V>(n, pool, total), run).Some?
    ensures var s := Exec(Init<V>(n, pool, total), run).value;
      && (n >= 1 && |s.entered| == n ==> s.closed || Closing(s))
      && (s.closed ==> s.ctx) && LosersTell(s)
  {
    StartKeepsInv<V>(n, pool, total);
    RunsKeepSetting(Init<V>(n, pool, total), run);
    RunsKeepEarly(Init<V>(n, pool, total), run);
  }

  /** And then it is closed two steps of that task later. */
  lemma ClosingCloses<V>(s: State<V>, i: nat)
    requires i < |s.workers| && s.workers[i].Winning?
    ensures Do(s, Win(i)).Some? && Do(Do(s, Win(i)).value, Shut(i)).Some?
    ensures var s' := Do(Do(s, Win(i)).value, Shut(i)).value; s'.closed && s'.ctx
  {
  }

  // ----- decisions

  /** A result is passed on unless one of the contexts is cancelled, and gets a place while there is one. */
  lemma ResultsCompete<V>(s: State<V>, i: nat)
    requires i < |s.workers|
    ensures s.workers[i].Checking? ==>
      && Do(s, Look(i)).Some?
      && Do(s, Look(i)).value.workers[i]
         == (if s.ctx || s.parent then Freeing else Claiming(s.workers[i].v))
    ensures s.workers[i].Claiming? ==>
      && Do(s, Claim(i)).Some? && Do(s, Claim(i)).value.resultCount == s.resultCount - 1
      && Do(s, Claim(i)).value.workers[i] == (if s.resultCount >= 1 then Sending(s.workers[i].v) else Losing)
  {
  }

  /** The next task starts if and only if fewer than the size of the pool are under way. */
  lemma StartsIffRoom<V>(s: State<V>)
    requires s.main.Acquiring? && s.main.k < |s.workers|
    ensures Do(s, Acquire).Some? <==> |s.tokens| < s.pool
    ensures |s.tokens| < s.pool ==> Do(s, Acquire).value.workers == s.workers[s.main.k := Calling]
  {
  }

  /** The tasks that have been started and have not given their token back. */
  ghost function Active<V>(s: State<V>): set<nat> {
    set i: nat | i < |s.workers| && !s.workers[i].Absent? && !s.workers[i].Signing? && !s.workers[i].Done?
  }

  /** In every interleaving no more tasks are under way than the pool has places. */
  lemma PoolIsKept<V>(n: nat, pool: nat, total: nat, run: seq<Action<V>>)
    requires Exec(Init<V>(n, pool, total), run).Some?
    ensures |Active(Exec(Init<V>(n, pool, total), run).value)| <= pool
  {
    StartKeepsInv<V>(n, pool, total);
    RunsKeepInv(Init<V>(n, pool, total), run);
    RunsKeepSetting(Init<V>(n, pool, total), run);
    var s := Exec(Init<V>(n, pool, total), run).value;
    forall i: nat ensures i in Active(s) <==> i in s.tokens {
      if i < |s.workers| { assert Tracked(s, i); }
    }
    assert Active(s) == s.tokens;
  }
}
