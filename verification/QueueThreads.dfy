/**
 Many threads on one queue of utils/Queue/mqueue.go.

 Everything the queue does to its fields happens under its lock, so a step is one critical
 section: an enqueue, a close, a dequeue, or the test that ends in a sleep. A call of
 DequeueWait or DequeueFunc is a thread that goes through such steps. The elements handed out
 are numbered, so that "exactly once" can be said of equal elements too.
 */
module QueueThreads {
  import opened Prelude
  import opened QueueValue

  /** Which of the two blocking calls a thread is in. */
  datatype Kind = Waiting | Applying

  datatype Result =
    | Received(k: nat)       // the call returned element number k
    | ClosedAndEmpty
    | Empty                  // only the call that does not block
    | Stopped                // the processing function asked to stop

  datatype Thread =
    | Taking(kind: Kind)     // about to dequeue
    | Holding(k: nat)        // DequeueFunc: took element k, about to pass it on
    | Rechecking(kind: Kind) // about to lock and decide whether to sleep
    | Asleep(kind: Kind)
    | Woken(kind: Kind)      // woken by a broadcast, about to lock and unlock again
    | Ended(result: Result)

  datatype State<T> = State(
    queue: Queue<T>,
    accepted: seq<T>,        // the values enqueued
    handed: seq<T>,          // the values dequeued
    takers: seq<nat>,        // by which thread
    applied: seq<nat>,       // the numbers of the elements passed to a processing function
    threads: map<nat, Thread>)

  datatype Action<T> =
    | Enqueue(v: T)
    | Close
    | TryDequeue(c: nat)
    | Call(c: nat, kind: Kind)
    | Take(c: nat)
    | Apply(c: nat, more: bool)   // `more` is what the processing function answers
    | Recheck(c: nat)
    | Relock(c: nat)

  function Init<T>(): State<T> {
    State(Queue(true, []), [], [], [], [], map[])
  }

  function WakeAll(threads: map<nat, Thread>): map<nat, Thread> {
    map c | c in threads :: if threads[c].Asleep? then Woken(threads[c].kind) else threads[c]
  }

  function Move<T>(s: State<T>, c: nat, t: Thread): State<T> {
    s.(threads := s.threads[c := t])
  }

  /** Thread `c` dequeues the first element. */
  function HandOut<T>(s: State<T>, c: nat): State<T>
    requires s.queue.contents != []
  {
    s.(queue := Rest(s.queue), handed := s.handed + [s.queue.contents[0]], takers := s.takers + [c])
  }

  function Do<T>(s: State<T>, a: Action<T>): Option<State<T>> {
    match a
    case Enqueue(v) =>
      if !s.queue.open then Some(s)
      else Some(s.(queue := Accept(s.queue, v), accepted := s.accepted + [v], threads := WakeAll(s.threads)))
    case Close => Some(s.(queue := Shut(s.queue), threads := WakeAll(s.threads)))
    case TryDequeue(c) =>
      if c in s.threads then None
      else if s.queue.contents != [] then Some(Move(HandOut(s, c), c, Ended(Received(|s.handed|))))
      else Some(Move(s, c, Ended(if s.queue.open then Empty else ClosedAndEmpty)))
    case Call(c, kind) => if c in s.threads then None else Some(Move(s, c, Taking(kind)))
    case Take(c) =>
      if c !in s.threads || !s.threads[c].Taking? then None
      else
        var kind := s.threads[c].kind;
        if s.queue.contents != [] then
          Some(Move(HandOut(s, c), c, if kind.Waiting? then Ended(Received(|s.handed|)) else Holding(|s.handed|)))
        else Some(Move(s, c, if s.queue.open then Rechecking(kind) else Ended(ClosedAndEmpty)))
    case Apply(c, more) =>
      if c !in s.threads || !s.threads[c].Holding? then None
      else Some(Move(s, c, if more then Rechecking(Applying) else Ended(Stopped))
                .(applied := s.applied + [s.threads[c].k]))
    case Recheck(c) =>
      if c !in s.threads || !s.threads[c].Rechecking? then None
      else
        var kind := s.threads[c].kind;
        Some(Move(s, c, if s.queue.open && s.queue.contents == [] then Asleep(kind) else Taking(kind)))
    case Relock(c) =>
      if c !in s.threads || !s.threads[c].Woken? then None
      else Some(Move(s, c, Taking(s.threads[c].kind)))
  }

  function Exec<T>(s: State<T>, run: seq<Action<T>>): Option<State<T>>
    decreases |run|
  {
    if run == [] then Some(s)
    else match Do(s, run[0]) case None => None case Some(s') => Exec(s', run[1..])
  }

  // ----- what every state keeps

  /** What was accepted has been handed out from the front, in order, and the rest is still queued. */
  ghost predicate Ledger<T>(s: State<T>) {
    s.accepted == s.handed + s.queue.contents && |s.takers| == |s.handed|
  }

  /** Thread `c` in this state says the truth about the queue. */
  ghost predicate Truthful<T>(s: State<T>, c: nat, t: Thread) {
    match t
    case Asleep(_) => s.queue.open && s.queue.contents == []
    case Holding(k) => k < |s.takers| && s.takers[k] == c && k !in s.applied
    case Ended(Received(k)) => k < |s.takers| && s.takers[k] == c && k !in s.applied
    case Ended(ClosedAndEmpty) => !s.queue.open && s.queue.contents == []
    case _ => true
  }

  ghost predicate ThreadsTruthful<T>(s: State<T>) {
    forall c <- s.threads :: Truthful(s, c, s.threads[c])
  }

  /** Element `k` was passed on, or is in the hands of the thread that took it, or was returned by it. */
  ghost predicate AccountedFor<T>(s: State<T>, k: nat)
    requires k < |s.takers|
  {
    || k in s.applied
    || (s.takers[k] in s.threads &&
        (s.threads[s.takers[k]] == Holding(k) || s.threads[s.takers[k]] == Ended(Received(k))))
  }

  ghost predicate AllAccountedFor<T>(s: State<T>) {
    forall k :: 0 <= k < |s.takers| ==> AccountedFor(s, k)
  }

  ghost predicate AppliedOnce<T>(s: State<T>) {
    && (forall i :: 0 <= i < |s.applied| ==> s.applied[i] < |s.takers|)
    && (forall i, j :: 0 <= i < j < |s.applied| ==> s.applied[i] != s.applied[j])
  }

  ghost predicate Inv<T>(s: State<T>) {
    Ledger(s) && ThreadsTruthful(s) && AllAccountedFor(s) && AppliedOnce(s)
  }

  lemma EnqueueKeepsInv<T>(s: State<T>, v: T)
    requires Inv(s)
    ensures Inv(Do(s, Enqueue(v)).value)
  {
    var s' := Do(s, Enqueue(v)).value;
    forall c <- s'.threads ensures Truthful(s', c, s'.threads[c]) {
      assert Truthful(s, c, s.threads[c]);
    }
    forall k: nat | k < |s'.takers| ensures AccountedFor(s', k) {
      assert AccountedFor(s, k);
    }
  }

  lemma CloseKeepsInv<T>(s: State<T>)
    requires Inv(s)
    ensures Inv(Do(s, Close).value)
  {
    var s' := Do(s, Close).value;
    forall c <- s'.threads ensures Truthful(s', c, s'.threads[c]) {
      assert Truthful(s, c, s.threads[c]);
    }
    forall k: nat | k < |s'.takers| ensures AccountedFor(s', k) {
      assert AccountedFor(s, k);
    }
  }

  /** A thread that holds nothing moves to a state that is true. */
  lemma MoveKeepsInv<T>(s: State<T>, c: nat, t: Thread)
    requires Inv(s) && Truthful(s, c, t)
    requires c in s.threads ==> !s.threads[c].Holding? && !s.threads[c].Ended?
    ensures Inv(Move(s, c, t))
  {
    var s' := Move(s, c, t);
    forall d <- s'.threads ensures Truthful(s', d, s'.threads[d]) {
      assert Truthful(s, d, if d == c then t else s.threads[d]);
    }
    forall k: nat | k < |s'.takers| ensures AccountedFor(s', k) {
      assert AccountedFor(s, k);
    }
  }

  /** Thread `c` takes the first element and holds or returns it. */
  lemma HandOutKeepsInv<T>(s: State<T>, c: nat, t: Thread)
    requires Inv(s) && s.queue.contents != []
    requires c in s.threads ==> !s.threads[c].Holding? && !s.threads[c].Ended?
    requires t == Holding(|s.handed|) || t == Ended(Received(|s.handed|))
    ensures Inv(Move(HandOut(s, c), c, t))
  {
    var s' := Move(HandOut(s, c), c, t);
    assert s.queue.contents == [s.queue.contents[0]] + s'.queue.contents;
    forall d <- s'.threads ensures Truthful(s', d, s'.threads[d]) {
      assert d != c ==> Truthful(s, d, s.threads[d]);
    }
    forall k: nat | k < |s'.takers| ensures AccountedFor(s', k) {
      assert k < |s.takers| ==> AccountedFor(s, k);
    }
  }

  lemma ApplyKeepsInv<T>(s: State<T>, c: nat, more: bool)
    requires Inv(s) && Do(s, Apply(c, more)).Some?
    ensures Inv(Do(s, Apply(c, more)).value)
  {
    var s' := Do(s, Apply(c, more)).value;
    var k0 := s.threads[c].k;
    assert Truthful(s, c, s.threads[c]);
    forall d <- s'.threads ensures Truthful(s', d, s'.threads[d]) {
      assert d != c ==> Truthful(s, d, s.threads[d]);
    }
    forall k: nat | k < |s'.takers| ensures AccountedFor(s', k) {
      assert AccountedFor(s, k);
      assert s'.applied[|s.applied|] == k0;
    }
  }

  lemma StepKeepsInv<T>(s: State<T>, a: Action<T>)
    requires Inv(s) && Do(s, a).Some?
    ensures Inv(Do(s, a).value)
  {
    match a
    case Enqueue(v) => EnqueueKeepsInv(s, v);
    case Close => CloseKeepsInv(s);
    case Apply(c, more) => ApplyKeepsInv(s, c, more);
    case _ =>
      var c := a.c;
      var t := Do(s, a).value.threads[c];
      if (a.TryDequeue? || a.Take?) && s.queue.contents != [] {
        HandOutKeepsInv(s, c, t);
      } else {
        MoveKeepsInv(s, c, t);
      }
  }

  lemma {:induction false} RunsKeepInv<T>(s: State<T>, run: seq<Action<T>>)
    requires Inv(s) && Exec(s, run).Some?
    ensures Inv(Exec(s, run).value)
    decreases |run|
  {
    if run != [] {
      StepKeepsInv(s, run[0]);
      RunsKeepInv(Do(s, run[0]).value, run[1..]);
    }
  }

  // ----- what follows for every run

  /** A thread sleeps only while the queue is open and empty. */
  lemma SleepsOnlyWhenOpenAndEmpty<T>(run: seq<Action<T>>, c: nat)
    requires Exec(Init<T>(), run).Some?
    ensures var s := Exec(Init<T>(), run).value;
      c in s.threads && s.threads[c].Asleep? ==> s.queue.open && s.queue.contents == []
  {
    RunsKeepInv(Init<T>(), run);
    var s := Exec(Init<T>(), run).value;
    assert c in s.threads ==> Truthful(s, c, s.threads[c]);
  }

  /**
   Elements leave in the order in which they were accepted, and no two calls get the same one:
   two threads that hold or returned element `k` are one thread, and then no processing function
   has seen it.
   */
  lemma HandedOutOnceInOrder<T>(run: seq<Action<T>>, c: nat, d: nat, k: nat)
    requires Exec(Init<T>(), run).Some?
    ensures var s := Exec(Init<T>(), run).value;
      && s.handed + s.queue.contents == s.accepted
      && (c in s.threads && s.threads[c] in [Holding(k), Ended(Received(k))]
          && d in s.threads && s.threads[d] in [Holding(k), Ended(Received(k))]
          ==> c == d && k < |s.handed| && k !in s.applied)
  {
    RunsKeepInv(Init<T>(), run);
    var s := Exec(Init<T>(), run).value;
    assert c in s.threads ==> Truthful(s, c, s.threads[c]);
    assert d in s.threads ==> Truthful(s, d, s.threads[d]);
  }

  // ----- what the calls of a run get

  /** An enqueue puts its value last, in the queue and among the accepted, exactly while the queue is open. */
  lemma EnqueueAcceptsIffOpen<T>(s: State<T>, v: T)
    ensures Do(s, Enqueue(v)).Some?
    ensures var s' := Do(s, Enqueue(v)).value;
      if s.queue.open
      then s'.queue == Queue(true, s.queue.contents + [v]) && s'.accepted == s.accepted + [v]
      else s' == s
  {
  }

  /** The values of the enqueues of a run that come before its first close. */
  function Offered<T>(run: seq<Action<T>>): seq<T>
    decreases |run|
  {
    if run == [] || run[0].Close? then []
    else (if run[0].Enqueue? then [run[0].v] else []) + Offered(run[1..])
  }

  predicate Closes<T>(run: seq<Action<T>>) {
    exists i :: 0 <= i < |run| && run[i].Close?
  }

  lemma {:induction false} ClosedAcceptsNothing<T>(s: State<T>, run: seq<Action<T>>)
    requires !s.queue.open && Exec(s, run).Some?
    ensures Exec(s, run).value.accepted == s.accepted && !Exec(s, run).value.queue.open
    decreases |run|
  {
    if run != [] {
      ClosedAcceptsNothing(Do(s, run[0]).value, run[1..]);
    }
  }

  lemma {:induction false} OpenAcceptsAll<T>(s: State<T>, run: seq<Action<T>>)
    requires s.queue.open && Exec(s, run).Some?
    ensures Exec(s, run).value.accepted == s.accepted + Offered(run)
    ensures Exec(s, run).value.queue.open <==> !Closes(run)
    decreases |run|
  {
    if run != [] {
      var s' := Do(s, run[0]).value;
      assert run[0].Close? ==> Closes(run);
      assert Closes(run) <==> run[0].Close? || Closes(run[1..]) by {
        if i :| 0 <= i < |run[1..]| && run[1..][i].Close? { assert run[i + 1].Close?; }
        if i :| 0 < i < |run| && run[i].Close? { assert run[1..][i - 1].Close?; }
      }
      if run[0].Close? {
        ClosedAcceptsNothing(s', run[1..]);
      } else {
        OpenAcceptsAll(s', run[1..]);
        assert run[0].Enqueue? ==> s'.accepted + Offered(run[1..]) == s.accepted + Offered(run);
      }
    }
  }

  /**
   In every run: the queue accepts exactly the values enqueued before the first close, in order;
   elements are handed out in that order; and the queue is open as long as nobody has closed it.
   */
  lemma AcceptsAllBeforeClose<T>(run: seq<Action<T>>)
    requires Exec(Init<T>(), run).Some?
    ensures var s := Exec(Init<T>(), run).value;
      && s.accepted == Offered(run) == s.handed + s.queue.contents
      && (s.queue.open <==> !Closes(run))
  {
    OpenAcceptsAll(Init<T>(), run);
    RunsKeepInv(Init<T>(), run);
    assert [] + Offered(run) == Offered(run);
  }

  /** A dequeue takes the first element if there is one, and reports an empty queue, open or closed, only if not. */
  lemma DequeueTakesFirst<T>(s: State<T>, c: nat)
    requires c !in s.threads
    ensures Do(s, TryDequeue(c)).Some?
    ensures var s' := Do(s, TryDequeue(c)).value;
      if s.queue.contents != [] then
        && s'.threads[c] == Ended(Received(|s.handed|)) && s'.handed == s.handed + [s.queue.contents[0]]
        && s'.queue == Queue(s.queue.open, s.queue.contents[1..])
      else
        && s'.threads[c] == Ended(if s.queue.open then Empty else ClosedAndEmpty)
        && s'.handed == s.handed && s'.queue == s.queue
  {
  }

  /** The same for the blocking calls, which go back to look whether to sleep while the queue is open and empty. */
  lemma TakeTakesFirst<T>(s: State<T>, c: nat, kind: Kind)
    requires c in s.threads && s.threads[c] == Taking(kind)
    ensures Do(s, Take(c)).Some?
    ensures var s' := Do(s, Take(c)).value;
      if s.queue.contents != [] then
        && s'.threads[c] == (if kind.Waiting? then Ended(Received(|s.handed|)) else Holding(|s.handed|))
        && s'.handed == s.handed + [s.queue.contents[0]] && s'.takers == s.takers + [c]
        && s'.queue == Queue(s.queue.open, s.queue.contents[1..])
      else
        && s'.threads[c] == (if s.queue.open then Rechecking(kind) else Ended(ClosedAndEmpty))
        && s'.handed == s.handed && s'.queue == s.queue
  {
  }

  /** A thread that is inside a blocking call can go on, unless it sleeps; and then the queue is open and empty. */
  lemma NeverStuck<T>(s: State<T>, c: nat)
    requires Inv(s) && c in s.threads && !s.threads[c].Ended?
    ensures s.threads[c].Asleep? ==> s.queue.open && s.queue.contents == []
    ensures !s.threads[c].Asleep? ==>
      || Do(s, Take(c)).Some? || Do(s, Recheck(c)).Some? || Do(s, Relock(c)).Some?
      || (Do(s, Apply(c, true)).Some? && Do(s, Apply(c, false)).Some?)
  {
    assert Truthful(s, c, s.threads[c]);
  }

  /** A thread falls asleep if and only if it finds the queue open and empty; a processing function's answer decides
      whether its call goes on. */
  lemma SleepsIffOpenAndEmpty<T>(s: State<T>, c: nat, more: bool)
    requires c in s.threads
    ensures s.threads[c].Rechecking? ==>
      && Do(s, Recheck(c)).Some?
      && (Do(s, Recheck(c)).value.threads[c].Asleep? <==> s.queue.open && s.queue.contents == [])
    ensures s.threads[c].Holding? ==>
      && Do(s, Apply(c, more)).Some? && Do(s, Apply(c, more)).value.applied == s.applied + [s.threads[c].k]
      && Do(s, Apply(c, more)).value.threads[c] == (if more then Rechecking(Applying) else Ended(Stopped))
  {
  }

  // ----- which call ends how

  /** A thread inside, or back from, a call of this kind. */
  predicate OfKind(t: Thread, kind: Kind) {
    match t
    case Holding(_) => kind.Applying?
    case Ended(Received(_)) => kind.Waiting?
    case Ended(ClosedAndEmpty) => true
    case Ended(Empty) => false
    case Ended(Stopped) => kind.Applying?
    case _ => t.kind == kind
  }

  lemma {:induction false} KindStays<T>(s: State<T>, run: seq<Action<T>>, c: nat, kind: Kind)
    requires c in s.threads && OfKind(s.threads[c], kind) && Exec(s, run).Some?
    ensures c in Exec(s, run).value.threads && OfKind(Exec(s, run).value.threads[c], kind)
    decreases |run|
  {
    if run != [] {
      KindStays(Do(s, run[0]).value, run[1..], c, kind);
    }
  }

  /**
   However a call of DequeueWait or DequeueFunc is made and whatever others do then: the first ends
   with an element or with a closed and empty queue; the second passes elements on until it is told
   to stop or the queue is closed and empty; neither ever reports an empty queue that is open.
   */
  lemma CallsEndByKind<T>(s: State<T>, c: nat, kind: Kind, run: seq<Action<T>>)
    requires c !in s.threads
    ensures Do(s, Call(c, kind)).Some?
    ensures var s1 := Do(s, Call(c, kind)).value;
      && s1 == s.(threads := s.threads[c := Taking(kind)])
      && (Exec(s1, run).Some? ==>
            c in Exec(s1, run).value.threads && OfKind(Exec(s1, run).value.threads[c], kind))
  {
    var s1 := Do(s, Call(c, kind)).value;
    if Exec(s1, run).Some? {
      KindStays(s1, run, c, kind);
    }
  }
}
