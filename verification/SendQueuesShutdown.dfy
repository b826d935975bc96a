/** Why closing the queues of server/rabbitmq_product.go comes to an end. */
module SendQueuesShutdown {
  import opened Prelude
  import opened SendQueues
  import Q = QueueThreads

  /** A step of the goroutines that the close waits for. */
  predicate Inside<T>(a: Action<T>) {
    a.StartShare? || a.StartHandler? || a.Handle? || a.EndShare? || a.Finish?
  }

  function Rank(t: Q.Thread): nat {
    match t
    case Holding(_) => 4
    case Taking(_) => 2
    case Ended(_) => 0
    case _ => 3
  }

  function Ranks(threads: map<nat, Q.Thread>, m: nat): nat {
    if m == 0 then 0
    else Ranks(threads, m - 1) + if m - 1 in threads then Rank(threads[m - 1]) else 0
  }

  function ShareWork<T>(x: Share<T>): int {
    3 * |x.q.queue.contents| + Ranks(x.q.threads, x.spawned) + 3 * (HANDLERS - x.spawned) + if x.ended then 0 else 1
  }

  function SharesWork<T>(xs: seq<Share<T>>): int {
    if xs == [] then 0 else ShareWork(xs[0]) + SharesWork(xs[1..])
  }

  /** An upper bound on the steps that are left once every queue is closed. */
  function Work<T>(s: State<T>): int {
    SharesWork(s.shares) + (|s.shares| - s.started) + if s.done then 0 else 1
  }

  lemma {:induction false} RanksOfMove(threads: map<nat, Q.Thread>, m: nat, c: nat, t: Q.Thread)
    ensures c >= m ==> Ranks(threads[c := t], m) == Ranks(threads, m)
    ensures c < m && c in threads ==> Ranks(threads[c := t], m) == Ranks(threads, m) - Rank(threads[c]) + Rank(t)
  {
    if m > 0 {
      RanksOfMove(threads, m - 1, c, t);
    }
  }

  lemma {:induction false} WorkOfUpdate<T>(xs: seq<Share<T>>, i: nat, y: Share<T>)
    requires i < |xs|
    ensures SharesWork(xs[i := y]) == SharesWork(xs) - ShareWork(xs[i]) + ShareWork(y)
  {
    if i == 0 {
      assert xs[i := y][1..] == xs[1..];
    } else {
      WorkOfUpdate(xs[1..], i - 1, y);
      assert xs[i := y][1..] == xs[1..][i - 1 := y];
    }
  }

  lemma {:induction false} WorkIsNatural<T>(xs: seq<Share<T>>)
    requires forall i :: 0 <= i < |xs| ==> ShareInv(xs[i])
    ensures SharesWork(xs) >= 0
  {
    if xs != [] {
      assert ShareInv(xs[0]);
      forall i | 0 <= i < |xs[1..]| ensures ShareInv(xs[1..][i]) {
        assert xs[1..][i] == xs[i + 1];
      }
      WorkIsNatural(xs[1..]);
    }
  }

  /** On a closed queue every handler step makes progress: no handler sleeps any more. */
  lemma HandlerStepWorks<T>(x: Share<T>, a: Q.Action<T>)
    requires ShareInv(x) && !x.q.queue.open && HandlerStep(a) && OnQueue(x, a).Some?
    ensures ShareWork(OnQueue(x, a).value) < ShareWork(x)
  {
    var t := Q.Do(x.q, a).value.threads[a.c];
    RanksOfMove(x.q.threads, x.spawned, a.c, t);
  }

  lemma InsideShareWorks<T>(x: Share<T>, a: Action<T>)
    requires a.StartHandler? || a.Handle? || a.EndShare?
    requires ShareInv(x) && !x.q.queue.open && DoShare(x, a).Some?
    ensures ShareWork(DoShare(x, a).value) < ShareWork(x)
  {
    match a
    case StartHandler(_) => RanksOfMove(x.q.threads, x.spawned, x.spawned, Q.Taking(Q.Applying));
    case Handle(_, b) => HandlerStepWorks(x, b);
    case EndShare(_) =>
  }

  /** Once closed, enqueueing is refused and closing again changes nothing. */
  lemma OutsideShareIdle<T>(x: Share<T>, a: Q.Action<T>)
    requires ShareInv(x) && !x.q.queue.open && (a.Enqueue? || a.Close?)
    ensures OnQueue(x, a) == Some(x)
  {
    forall c <- x.q.threads ensures !x.q.threads[c].Asleep? {
      assert Q.Truthful(x.q, c, x.q.threads[c]);
    }
    assert Q.WakeAll(x.q.threads) == x.q.threads;
  }

  /** Less work in one share of a closed state is less work in all. */
  lemma PutWorks<T>(s: State<T>, i: nat, y: Share<T>)
    requires AllClosed(s) && i < |s.shares| && !y.q.queue.open && ShareWork(y) < ShareWork(s.shares[i])
    ensures var s' := s.(shares := s.shares[i := y]); AllClosed(s') && Work(s') < Work(s)
  {
    WorkOfUpdate(s.shares, i, y);
  }

  lemma InsideStepWorks<T>(s: State<T>, a: Action<T>)
    requires Inv(s) && AllClosed(s) && Inside(a) && Do(s, a).Some?
    ensures AllClosed(Do(s, a).value) && Work(Do(s, a).value) < Work(s)
  {
    if a.StartHandler? || a.Handle? || a.EndShare? {
      var x := s.shares[a.i];
      InsideStepKeepsShareInv(x, a);
      InsideShareWorks(x, a);
      PutWorks(s, a.i, DoShare(x, a).value);
    }
  }

  lemma OutsideStepIdle<T>(s: State<T>, a: Action<T>)
    requires Inv(s) && AllClosed(s) && !Inside(a) && Do(s, a).Some?
    ensures var s' := Do(s, a).value; s'.shares == s.shares && s'.started == s.started && s'.done == s.done
  {
    if a.Deliver? {
      var w := s.producers[a.p];
      OutsideShareIdle(s.shares[w.share], Q.Enqueue(w.v));
    } else if a.CloseNext? {
      OutsideShareIdle(s.shares[s.closers[a.c].next], Q.Close);
    }
  }

  function InsideSteps<T>(run: seq<Action<T>>): nat {
    if run == [] then 0 else InsideSteps(run[1..]) + if Inside(run[0]) then 1 else 0
  }

  /** After all queues are closed, no run contains more inside steps than there is work left. */
  lemma {:induction false} ShutdownIsBounded<T>(s: State<T>, run: seq<Action<T>>)
    requires Inv(s) && AllClosed(s) && Exec(s, run).Some?
    ensures InsideSteps(run) <= Work(s)
    decreases |run|
  {
    WorkIsNatural(s.shares);
    if run != [] {
      StepKeepsInv(s, run[0]);
      if Inside(run[0]) { InsideStepWorks(s, run[0]); } else { OutsideStepIdle(s, run[0]); }
      ShutdownIsBounded(Do(s, run[0]).value, run[1..]);
    }
  }

  /** A handler that has not returned can always take a step once the queue is closed. */
  lemma HandlerCanStep<T>(x: Share<T>, c: nat)
    requires ShareInv(x) && !x.q.queue.open
    requires c in x.q.threads && !x.q.threads[c].Ended?
    ensures exists a: Q.Action<T> :: HandlerStep(a) && OnQueue(x, a).Some?
  {
    assert Q.Truthful(x.q, c, x.q.threads[c]);
    var a: Q.Action<T> := match x.q.threads[c]
      case Taking(_) => Q.Take(c)
      case Holding(_) => Q.Apply(c, true)
      case Rechecking(_) => Q.Recheck(c)
      case _ => Q.Relock(c);
    assert HandlerStep(a) && OnQueue(x, a).Some?;
  }

  lemma ShareCanStep<T>(s: State<T>, i: nat)
    requires Inv(s) && AllClosed(s) && s.started == |s.shares|
    requires i < |s.shares| && !s.shares[i].ended
    ensures exists a: Action<T> :: Inside(a) && Do(s, a).Some?
  {
    var x := s.shares[i];
    assert ShareInv(x);
    if x.spawned < HANDLERS {
      assert Do(s, StartHandler(i)).Some?;
    } else if AllEnded(x.q.threads) {
      assert Do(s, EndShare(i)).Some?;
    } else {
      var c :| c in x.q.threads && !x.q.threads[c].Ended?;
      HandlerCanStep(x, c);
      var b: Q.Action<T> :| HandlerStep(b) && OnQueue(x, b).Some?;
      assert Do(s, Handle(i, b)).Some?;
    }
  }

  /**
   Until the end is announced some inside step is possible. With `ShutdownIsBounded` this means
   that a close whose waited-for goroutines keep being scheduled returns.
   */
  lemma ShutdownNeverStuck<T>(s: State<T>)
    requires Inv(s) && AllClosed(s) && !s.done
    ensures exists a: Action<T> :: Inside(a) && Do(s, a).Some?
  {
    if s.started < |s.shares| {
      assert Do(s, StartShare).Some?;
    } else if i: nat :| i < |s.shares| && !s.shares[i].ended {
      ShareCanStep(s, i);
    } else {
      assert Do(s, Finish).Some?;
    }
  }
}
