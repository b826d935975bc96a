/** Why the result collector of utils/taskRunManager/chanTask.go comes to an end. */
module CollectorProgress {
  import opened Prelude
  import opened ResultCollector
  import opened Sums

  /** The next step of a task that is under way. */
  function NextStep<V>(i: nat, w: Worker<V>): Action<V>
    requires !w.Absent? && !w.Done?
  {
    match w
    case Calling => Return(i, None)
    case Checking(_) => Look(i)
    case Claiming(_) => Claim(i)
    case Losing => Lose(i)
    case Sending(_) => Send(i)
    case Counting => Count(i)
    case Winning => Win(i)
    case Shutting => Shut(i)
    case Freeing => Free(i)
    case Signing => Sign(i)
  }

  lemma ActiveCanStep<V>(s: State<V>, i: nat)
    requires i < |s.workers| && !s.workers[i].Absent? && !s.workers[i].Done?
    ensures Do(s, NextStep(i, s.workers[i])).Some?
  {
  }

  /** With a pool of at least one, the collector can always take a step until it has exited. */
  lemma NeverStuck<V>(s: State<V>) returns (a: Action<V>)
    requires Inv(s) && s.pool >= 1 && !s.main.Exited?
    ensures !a.CancelParent? && !a.Receive? && Do(s, a).Some?
  {
    match s.main
    case Spawning(k) => a := if k < |s.workers| then Add else AllStarted;
    case Acquiring(k) =>
      if |s.tokens| < s.pool {
        a := Acquire;
      } else {
        var i :| i in s.tokens;
        assert i < |s.workers| && Tracked(s, i);
        ActiveCanStep(s, i);
        a := NextStep(i, s.workers[i]);
      }
    case Joining =>
      if s.added == {} {
        a := Join;
      } else {
        var i :| i in s.added;
        assert Tracked(s, i);
        ActiveCanStep(s, i);
        a := NextStep(i, s.workers[i]);
      }
    case Cancelling => a := MainCancel;
    case Closing => a := MainClose;
  }

  // ----- only so many steps

  /** A step of the collector itself or of a task. */
  predicate OwnStep<V>(a: Action<V>) {
    !a.CancelParent? && !a.Receive?
  }

  /** How many steps a task has left at most. */
  function Rank<V>(w: Worker<V>): int {
    match w
    case Absent => 10
    case Calling => 9
    case Checking(_) => 8
    case Claiming(_) => 7
    case Sending(_) => 6
    case Counting => 5
    case Winning => 4
    case Shutting => 3
    case Losing => 3
    case Freeing => 2
    case Signing => 1
    case Done => 0
  }

  function Ranks<V>(workers: seq<Worker<V>>): seq<int> {
    seq(|workers|, i requires 0 <= i < |workers| => Rank(workers[i]))
  }

  function MainRank<V>(s: State<V>): int {
    match s.main
    case Spawning(k) => 2 * (|s.workers| - k) + 4
    case Acquiring(k) => 2 * (|s.workers| - k) + 3
    case Joining => 3
    case Cancelling => 2
    case Closing => 1
    case Exited => 0
  }

  /** An upper bound on the own steps that are left. */
  function Work<V>(s: State<V>): int {
    Sum(Ranks(s.workers)) + MainRank(s)
  }

  lemma WorkOfPut<V>(workers: seq<Worker<V>>, i: nat, w: Worker<V>)
    requires i < |workers|
    ensures Sum(Ranks(workers[i := w])) == Sum(Ranks(workers)) - Rank(workers[i]) + Rank(w)
  {
    assert Ranks(workers[i := w]) == Ranks(workers)[i := Rank(w)];
    SumOfUpdate(Ranks(workers), i, Rank(w));
  }

  /** Task `i` has moved on, and all others and the starting goroutine are where they were. */
  ghost predicate MovedOn<V>(s: State<V>, s': State<V>, i: nat) {
    && i < |s.workers| == |s'.workers| && s'.main == s.main
    && s'.workers == s.workers[i := s'.workers[i]] && Rank(s'.workers[i]) < Rank(s.workers[i])
  }

  lemma ReturningMovesOn<V>(s: State<V>, a: Action<V>)
    requires (a.Return? || a.Look?) && DoWorker(s, a).Some?
    ensures MovedOn(s, DoWorker(s, a).value, a.i)
  {
  }

  lemma ClaimingMovesOn<V>(s: State<V>, i: nat)
    requires DoWorker(s, Claim(i)).Some?
    ensures MovedOn(s, DoWorker(s, Claim(i)).value, i)
  {
  }

  lemma SendingMovesOn<V>(s: State<V>, a: Action<V>)
    requires (a.Lose? || a.Send? || a.Count?) && DoWorker(s, a).Some?
    ensures MovedOn(s, DoWorker(s, a).value, a.i)
  {
  }

  lemma EndingMovesOn<V>(s: State<V>, a: Action<V>)
    requires (a.Win? || a.Shut? || a.Free? || a.Sign?) && DoWorker(s, a).Some?
    ensures MovedOn(s, DoWorker(s, a).value, a.i)
  {
  }

  lemma WorkerWorks<V>(s: State<V>, a: Action<V>)
    requires IsWorkerAction(a) && DoWorker(s, a).Some?
    ensures Work(DoWorker(s, a).value) < Work(s)
  {
    if a.Return? || a.Look? {
      ReturningMovesOn(s, a);
    } else if a.Claim? {
      ClaimingMovesOn(s, a.i);
    } else if a.Lose? || a.Send? || a.Count? {
      SendingMovesOn(s, a);
    } else {
      EndingMovesOn(s, a);
    }
    WorkOfPut(s.workers, a.i, DoWorker(s, a).value.workers[a.i]);
  }

  lemma MainWorks<V>(s: State<V>, a: Action<V>)
    requires Inv(s) && IsMainAction(a) && DoMain(s, a).Some?
    ensures Work(DoMain(s, a).value) < Work(s)
  {
    if a.Acquire? {
      assert Tracked(s, s.main.k);
      WorkOfPut(s.workers, s.main.k, Calling);
    }
  }

  lemma OthersIdle<V>(s: State<V>, a: Action<V>)
    requires !OwnStep(a) && Do(s, a).Some?
    ensures Work(Do(s, a).value) == Work(s)
  {
  }

  lemma WorkIsNatural<V>(s: State<V>)
    requires Inv(s)
    ensures Work(s) >= 0
  {
    SumIsNatural(Ranks(s.workers));
  }

  function OwnSteps<V>(run: seq<Action<V>>): nat {
    if run == [] then 0 else OwnSteps(run[1..]) + if OwnStep(run[0]) then 1 else 0
  }

  /** No run contains more own steps than there is work; with `NeverStuck`, the collector exits. */
  lemma {:induction false} ExitIsBounded<V>(s: State<V>, run: seq<Action<V>>)
    requires Inv(s) && Exec(s, run).Some?
    ensures OwnSteps(run) <= Work(s)
    decreases |run|
  {
    WorkIsNatural(s);
    if run != [] {
      var a := run[0];
      StepKeepsInvariant(s, a);
      if IsWorkerAction(a) {
        WorkerWorks(s, a);
      } else if IsMainAction(a) {
        MainWorks(s, a);
      } else {
        OthersIdle(s, a);
      }
      ExitIsBounded(Do(s, a).value, run[1..]);
    }
  }

  /** From the start a collector of `total` tasks takes at most twelve steps per task and four more. */
  lemma ExitsInTime<V>(n: nat, pool: nat, total: nat, run: seq<Action<V>>)
    requires Exec(Init<V>(n, pool, total), run).Some?
    ensures OwnSteps(run) <= 12 * total + 4
  {
    StartKeepsInv<V>(n, pool, total);
    SumAtMost(Ranks(Init<V>(n, pool, total).workers), 10);
    ExitIsBounded(Init<V>(n, pool, total), run);
  }
}
