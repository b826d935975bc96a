/**
 The outgoing message queues of server/rabbitmq_product.go: eight queues filled round robin by
 any number of producers, four handler threads on each, and a shutdown that closes every queue
 and waits for the handlers.
 */
module SendQueues {
  import opened Prelude
  import Q = QueueThreads

  const SHARES: nat := 8
  const HANDLERS: nat := 4
  const TWO_TO_THE_64: nat := 0x1_0000_0000_0000_0000

  /** One queue with the goroutine that starts its handlers and waits for them. */
  datatype Share<T> = Share(
    q: Q.State<T>,
    spawned: nat,            // handlers started so far
    ended: bool)             // all handlers have returned and so has the goroutine

  /** A producer between drawing a number and enqueueing. */
  datatype Pending<T> = Pending(share: nat, v: T)

  datatype Closer = Closing(next: nat) | Returned

  datatype State<T> = State(
    shares: seq<Share<T>>,
    started: nat,            // shares whose goroutine has been started
    done: bool,              // the channel that announces the end is closed
    counter: nat,
    drawn: seq<nat>,         // the shares that producers have drawn, in order
    producers: map<nat, Pending<T>>,
    closers: map<nat, Closer>)

  datatype Action<T> =
    | Draw(p: nat, v: T)
    | Deliver(p: nat)
    | StartShare
    | StartHandler(i: nat)
    | Handle(i: nat, a: Q.Action<T>)
    | EndShare(i: nat)
    | Finish
    | CallClose(c: nat)
    | CloseNext(c: nat)
    | Await(c: nat)

  function Init<T>(): State<T> {
    State(seq(SHARES, _ => Share(Q.Init(), 0, false)), 0, false, 0, [], map[], map[])
  }

  /** A step that a handler takes by itself; its processing function always asks for more. */
  predicate HandlerStep<T>(a: Q.Action<T>) {
    a.Take? || (a.Apply? && a.more) || a.Recheck? || a.Relock?
  }

  predicate AllEnded(threads: map<nat, Q.Thread>) {
    forall c <- threads :: threads[c].Ended?
  }

  function OnQueue<T>(x: Share<T>, a: Q.Action<T>): Option<Share<T>> {
    match Q.Do(x.q, a) case None => None case Some(q) => Some(x.(q := q))
  }

  /** What an action does to the share it concerns, if it is possible there. */
  function DoShare<T>(x: Share<T>, a: Action<T>): Option<Share<T>>
    requires a.StartHandler? || a.Handle? || a.EndShare?
  {
    match a
    case StartHandler(_) =>
      if x.spawned >= HANDLERS then None
      else (match OnQueue(x, Q.Call(x.spawned, Q.Applying))
            case None => None
            case Some(y) => Some(y.(spawned := x.spawned + 1)))
    case Handle(_, b) => if HandlerStep(b) then OnQueue(x, b) else None
    case EndShare(_) =>
      if x.spawned == HANDLERS && !x.ended && AllEnded(x.q.threads) then Some(x.(ended := true)) else None
  }

  function Put<T>(s: State<T>, i: nat, y: Option<Share<T>>): Option<State<T>>
    requires i < |s.shares|
  {
    match y case None => None case Some(x) => Some(s.(shares := s.shares[i := x]))
  }

  function Do<T>(s: State<T>, a: Action<T>): Option<State<T>> {
    match a
    case Draw(p, v) =>
      if p in s.producers then None
      else
        var n := (s.counter + 1) % TWO_TO_THE_64;
        Some(s.(counter := n, drawn := s.drawn + [n % SHARES], producers := s.producers[p := Pending(n % SHARES, v)]))
    case Deliver(p) =>
      if p !in s.producers || s.producers[p].share >= |s.shares| then None
      else
        var w := s.producers[p];
        Put(s.(producers := s.producers - {p}), w.share, OnQueue(s.shares[w.share], Q.Enqueue(w.v)))
    case StartShare => if s.started < |s.shares| then Some(s.(started := s.started + 1)) else None
    case Finish =>
      if s.started == |s.shares| && !s.done && (forall i :: 0 <= i < |s.shares| ==> s.shares[i].ended)
      then Some(s.(done := true)) else None
    case CallClose(c) => if c in s.closers then None else Some(s.(closers := s.closers[c := Closing(0)]))
    case CloseNext(c) =>
      if c !in s.closers || !s.closers[c].Closing? || s.closers[c].next >= |s.shares| then None
      else
        var i := s.closers[c].next;
        Put(s.(closers := s.closers[c := Closing(i + 1)]), i, OnQueue(s.shares[i], Q.Close))
    case Await(c) =>
      if c !in s.closers || s.closers[c] != Closing(|s.shares|) || !s.done then None
      else Some(s.(closers := s.closers[c := Returned]))
    case _ =>
      if a.i >= s.started || a.i >= |s.shares| then None
      else Put(s, a.i, DoShare(s.shares[a.i], a))
  }

  function Exec<T>(s: State<T>, run: seq<Action<T>>): Option<State<T>>
    decreases |run|
  {
    if run == [] then Some(s)
    else match Do(s, run[0]) case None => None case Some(s') => Exec(s', run[1..])
  }

  // ----- what every state keeps

  predicate IsHandler(t: Q.Thread) {
    match t
    case Holding(_) => true
    case Ended(r) => r.ClosedAndEmpty?
    case _ => t.kind.Applying?
  }

  ghost predicate ShareInv<T>(x: Share<T>) {
    && Q.Inv(x.q)
    && x.spawned <= HANDLERS
    && (forall c: nat :: c in x.q.threads <==> c < x.spawned)
    && (forall c <- x.q.threads :: IsHandler(x.q.threads[c]))
    && (x.ended ==> x.spawned == HANDLERS && AllEnded(x.q.threads))
  }

  ghost predicate SharesInv<T>(s: State<T>) {
    |s.shares| == SHARES && forall i :: 0 <= i < |s.shares| ==> ShareInv(s.shares[i])
  }

  ghost predicate DoneInv<T>(s: State<T>) {
    && s.started <= |s.shares|
    && (s.done ==> forall i :: 0 <= i < |s.shares| ==> s.shares[i].ended)
  }

  ghost predicate CloserInv<T>(s: State<T>, c: Closer) {
    match c
    case Closing(n) => n <= |s.shares| && forall i :: 0 <= i < n ==> !s.shares[i].q.queue.open
    case Returned => s.done && AllClosed(s)
  }

  ghost predicate AllClosed<T>(s: State<T>) {
    forall i :: 0 <= i < |s.shares| ==> !s.shares[i].q.queue.open
  }

  ghost predicate ProducersInv<T>(s: State<T>) {
    forall p <- s.producers :: s.producers[p].share < |s.shares|
  }

  ghost predicate Inv<T>(s: State<T>) {
    SharesInv(s) && DoneInv(s) && ProducersInv(s) && forall c <- s.closers :: CloserInv(s, s.closers[c])
  }

  /** Any queue step keeps what is known about the queue and never opens it again. */
  lemma QueueStep<T>(x: Share<T>, a: Q.Action<T>)
    requires Q.Inv(x.q) && OnQueue(x, a).Some?
    ensures Q.Inv(OnQueue(x, a).value.q)
    ensures OnQueue(x, a).value.q.queue.open ==> x.q.queue.open
  {
    Q.StepKeepsInv(x.q, a);
  }

  /** Enqueueing and closing wake handlers and change no thread otherwise. */
  lemma OutsideStepKeepsShareInv<T>(x: Share<T>, a: Q.Action<T>)
    requires ShareInv(x) && (a.Enqueue? || a.Close?)
    ensures OnQueue(x, a).Some? && ShareInv(OnQueue(x, a).value)
    ensures OnQueue(x, a).value.ended == x.ended
    ensures OnQueue(x, a).value.q.queue.open ==> x.q.queue.open && a.Enqueue?
  {
    QueueStep(x, a);
  }

  lemma InsideStepKeepsShareInv<T>(x: Share<T>, a: Action<T>)
    requires a.StartHandler? || a.Handle? || a.EndShare?
    requires ShareInv(x) && DoShare(x, a).Some?
    ensures ShareInv(DoShare(x, a).value)
    ensures x.ended ==> DoShare(x, a).value.ended
    ensures DoShare(x, a).value.q.queue.open ==> x.q.queue.open
  {
    match a
    case StartHandler(_) => QueueStep(x, Q.Call(x.spawned, Q.Applying));
    case Handle(_, b) => QueueStep(x, b);
    case EndShare(_) =>
  }

  /** Replacing one share by a later state of it keeps the invariant. */
  lemma PutKeepsInv<T>(s: State<T>, i: nat, x: Share<T>)
    requires Inv(s) && i < |s.shares|
    requires ShareInv(x) && (s.shares[i].ended ==> x.ended)
    requires x.q.queue.open ==> s.shares[i].q.queue.open
    ensures Inv(s.(shares := s.shares[i := x]))
  {
    var s' := s.(shares := s.shares[i := x]);
    forall c <- s'.closers ensures CloserInv(s', s'.closers[c]) {
      assert CloserInv(s, s.closers[c]);
    }
  }

  lemma CloseNextKeepsInv<T>(s: State<T>, c: nat)
    requires Inv(s) && Do(s, CloseNext(c)).Some?
    ensures Inv(Do(s, CloseNext(c)).value)
  {
    var i := s.closers[c].next;
    OutsideStepKeepsShareInv(s.shares[i], Q.Close);
    var x := OnQueue(s.shares[i], Q.Close).value;
    PutKeepsInv(s, i, x);
    var t := s.(shares := s.shares[i := x]);
    assert CloserInv(s, s.closers[c]);
    assert CloserInv(t, Closing(i + 1));
    var s' := t.(closers := t.closers[c := Closing(i + 1)]);
    forall d <- s'.closers ensures CloserInv(s', s'.closers[d]) {
      assert d != c ==> CloserInv(t, t.closers[d]);
    }
  }

  lemma DeliverKeepsInv<T>(s: State<T>, p: nat)
    requires Inv(s) && Do(s, Deliver(p)).Some?
    ensures Inv(Do(s, Deliver(p)).value)
  {
    var w := s.producers[p];
    OutsideStepKeepsShareInv(s.shares[w.share], Q.Enqueue(w.v));
    PutKeepsInv(s.(producers := s.producers - {p}), w.share, OnQueue(s.shares[w.share], Q.Enqueue(w.v)).value);
  }

  lemma InsideKeepsInv<T>(s: State<T>, a: Action<T>)
    requires a.StartHandler? || a.Handle? || a.EndShare?
    requires Inv(s) && Do(s, a).Some?
    ensures Inv(Do(s, a).value)
  {
    InsideStepKeepsShareInv(s.shares[a.i], a);
    PutKeepsInv(s, a.i, DoShare(s.shares[a.i], a).value);
  }

  lemma StepKeepsInv<T>(s: State<T>, a: Action<T>)
    requires Inv(s) && Do(s, a).Some?
    ensures Inv(Do(s, a).value)
  {
    if a.StartHandler? || a.Handle? || a.EndShare? {
      InsideKeepsInv(s, a);
    } else if a.Deliver? {
      DeliverKeepsInv(s, a.p);
    } else if a.CloseNext? {
      CloseNextKeepsInv(s, a.c);
    } else {
      var s' := Do(s, a).value;
      forall c <- s'.closers ensures CloserInv(s', s'.closers[c]) {
        assert c in s.closers ==> CloserInv(s, s.closers[c]);
      }
    }
  }

  lemma {:induction false} RunsKeepInv<T>(s: State<T>, run: seq<Action<T>>)
    requires Inv(s) && Exec(s, run).Some?
    ensures Inv(Exec(s, run).value)
    decreases |run|
  {
    if run != [] {
      StepKeepsInv(s, run[0]);
      RunsKeepInv(Do(s, run[0]).value, run[1..]);
    }
  }

  // ----- producers take turns

  ghost predicate TakesTurns<T>(s: State<T>) {
    && s.counter == |s.drawn| % TWO_TO_THE_64
    && forall j :: 0 <= j < |s.drawn| ==> s.drawn[j] == (j + 1) % SHARES
  }

  /** The counter wraps around at a multiple of the number of shares. */
  lemma WrapKeepsTurn(n: nat)
    ensures (n % TWO_TO_THE_64 + 1) % TWO_TO_THE_64 == (n + 1) % TWO_TO_THE_64
    ensures (n + 1) % TWO_TO_THE_64 % SHARES == (n + 1) % SHARES
  {
    var q := (n + 1) / TWO_TO_THE_64;
    assert n + 1 == SHARES * (q * 0x2000_0000_0000_0000) + (n + 1) % TWO_TO_THE_64;
  }

  lemma StepKeepsTurns<T>(s: State<T>, a: Action<T>)
    requires TakesTurns(s) && Do(s, a).Some?
    ensures TakesTurns(Do(s, a).value)
  {
    if a.Draw? {
      WrapKeepsTurn(|s.drawn|);
    }
  }

  lemma {:induction false} RunsKeepTurns<T>(s: State<T>, run: seq<Action<T>>)
    requires TakesTurns(s) && Exec(s, run).Some?
    ensures TakesTurns(Exec(s, run).value)
    decreases |run|
  {
    if run != [] {
      StepKeepsTurns(s, run[0]);
      RunsKeepTurns(Do(s, run[0]).value, run[1..]);
    }
  }

  /** In every run the producers' draws go round the shares, also when the counter wraps around. */
  lemma RoundRobin<T>(run: seq<Action<T>>, j: nat)
    requires Exec(Init<T>(), run).Some?
    ensures var s := Exec(Init<T>(), run).value; j < |s.drawn| ==> s.drawn[j] == (j + 1) % SHARES
  {
    RunsKeepTurns(Init<T>(), run);
  }

  // ----- where messages go

  /** A delivery puts the producer's value last among the accepted of the share it drew, exactly if that share is open,
      and touches no other share. */
  lemma DeliverLands<T>(s: State<T>, p: nat)
    requires p in s.producers && s.producers[p].share < |s.shares|
    ensures var w := s.producers[p]; var q := s.shares[w.share].q;
      && Do(s, Deliver(p)).Some?
      && var s' := Do(s, Deliver(p)).value;
         && |s'.shares| == |s.shares| && s'.producers == s.producers - {p}
         && (if q.queue.open then s'.shares[w.share].q.accepted == q.accepted + [w.v] else s'.shares[w.share].q == q)
         && (q.queue.open ==> s'.shares[w.share].q.queue == Q.QueueValue.Queue(true, q.queue.contents + [w.v]))
         && forall i :: 0 <= i < |s.shares| && i != w.share ==> s'.shares[i] == s.shares[i]
  {
    var w := s.producers[p];
    Q.EnqueueAcceptsIffOpen(s.shares[w.share].q, w.v);
  }

  /** What the actions of a run mean for share `i`: whose turn it is, who waits with what for which share, how far each
      close has come, whether the share is open, and what it has accepted. */
  datatype View<T> = View(
    turn: nat, waiting: map<nat, Pending<T>>, closing: map<nat, nat>, open: bool, accepted: seq<T>)

  function Seen<T>(v: View<T>, a: Action<T>, i: nat): View<T> {
    match a
    case Draw(p, m) => v.(turn := v.turn + 1, waiting := v.waiting[p := Pending((v.turn + 1) % 8, m)])
    case Deliver(p) =>
      if p !in v.waiting then v
      else v.(
        waiting := v.waiting - {p},
        accepted := if v.waiting[p].share == i && v.open then v.accepted + [v.waiting[p].v] else v.accepted)
    case CallClose(c) => v.(closing := v.closing[c := 0])
    case CloseNext(c) =>
      if c !in v.closing then v
      else v.(closing := v.closing[c := v.closing[c] + 1], open := v.open && v.closing[c] != i)
    case _ => v
  }

  function FirstView<T>(): View<T> {
    View(0, map[], map[], true, [])
  }

  function SeenAll<T>(v: View<T>, run: seq<Action<T>>, i: nat): View<T>
    decreases |run|
  {
    if run == [] then v else SeenAll(Seen(v, run[0], i), run[1..], i)
  }

  ghost predicate Shows<T>(s: State<T>, v: View<T>, i: nat) {
    && |s.shares| == SHARES && i < SHARES
    && v.turn == |s.drawn| && TakesTurns(s)
    && s.producers == v.waiting
    && (forall c <- s.closers :: s.closers[c].Closing? ==> c in v.closing && v.closing[c] == s.closers[c].next)
    && s.shares[i].q.queue.open == v.open && s.shares[i].q.accepted == v.accepted
  }

  lemma ShareStepKeepsView<T>(x: Share<T>, a: Action<T>)
    requires a.StartHandler? || a.Handle? || a.EndShare?
    requires DoShare(x, a).Some?
    ensures DoShare(x, a).value.q.queue.open == x.q.queue.open && DoShare(x, a).value.q.accepted == x.q.accepted
  {
  }

  lemma StepKeepsView<T>(s: State<T>, a: Action<T>, v: View<T>, i: nat)
    requires Shows(s, v, i) && Do(s, a).Some?
    ensures Shows(Do(s, a).value, Seen(v, a, i), i)
  {
    StepKeepsTurns(s, a);
    match a
    case Draw(_, _) => WrapKeepsTurn(|s.drawn|);
    case Deliver(p) => DeliverLands(s, p);
    case StartHandler(k) => ShareStepKeepsView(s.shares[k], a);
    case Handle(k, _) => ShareStepKeepsView(s.shares[k], a);
    case EndShare(k) => ShareStepKeepsView(s.shares[k], a);
    case _ =>
  }

  lemma {:induction false} RunsKeepView<T>(s: State<T>, run: seq<Action<T>>, v: View<T>, i: nat)
    requires Shows(s, v, i) && Exec(s, run).Some?
    ensures Shows(Exec(s, run).value, SeenAll(v, run, i), i)
    decreases |run|
  {
    if run != [] {
      StepKeepsView(s, run[0], v, i);
      RunsKeepView(Do(s, run[0]).value, run[1..], Seen(v, run[0], i), i);
    }
  }

  /**
   In every run each share accepts exactly the messages of the producers whose turn it was for, in
   the order of their deliveries, until a close has come to it; handlers and their steps make no
   difference.
   */
  lemma AcceptsItsTurns<T>(run: seq<Action<T>>, i: nat)
    requires Exec(Init<T>(), run).Some? && i < SHARES
    ensures var s := Exec(Init<T>(), run).value; var v := SeenAll(FirstView<T>(), run, i);
      && |s.shares| == SHARES
      && s.shares[i].q.accepted == v.accepted && s.shares[i].q.queue.open == v.open && s.producers == v.waiting
  {
    RunsKeepView(Init<T>(), run, FirstView(), i);
  }

  // ----- nothing accepted is lost

  /** Every message the queue accepted has been passed to the processing function exactly once. */
  ghost predicate ProcessedOnce<T>(q: Q.State<T>) {
    && !q.queue.open && q.queue.contents == [] && q.handed == q.accepted
    && (forall k: nat :: k < |q.accepted| <==> k in q.applied)
    && (forall i, j :: 0 <= i < j < |q.applied| ==> q.applied[i] != q.applied[j])
  }

  lemma EndedShareIsDrained<T>(x: Share<T>)
    requires ShareInv(x) && x.ended
    ensures ProcessedOnce(x.q)
  {
    assert Q.Truthful(x.q, 0, x.q.threads[0]);
    forall k: nat | k < |x.q.accepted| ensures k in x.q.applied {
      assert Q.AccountedFor(x.q, k);
    }
  }

  /** In every interleaving: when a close returns, every accepted message was processed exactly once. */
  lemma CloseReturnsDrained<T>(run: seq<Action<T>>, c: nat, i: nat)
    requires Exec(Init<T>(), run).Some? && i < SHARES
    requires var s := Exec(Init<T>(), run).value; c in s.closers && s.closers[c].Returned?
    ensures var s := Exec(Init<T>(), run).value; i < |s.shares| && ProcessedOnce(s.shares[i].q)
  {
    RunsKeepInv(Init<T>(), run);
    var s := Exec(Init<T>(), run).value;
    assert CloserInv(s, s.closers[c]);
    EndedShareIsDrained(s.shares[i]);
  }

  // ----- nobody waits for long

  /** A handler that is not asleep can take a step, and it sleeps only while its queue is open and empty. */
  lemma HandlersGoOn<T>(s: State<T>, i: nat, c: nat)
    requires Inv(s) && i < |s.shares| && i < s.started
    requires c in s.shares[i].q.threads && !s.shares[i].q.threads[c].Ended?
    ensures var q := s.shares[i].q;
      if q.threads[c].Asleep? then q.queue.open && q.queue.contents == []
      else || Do(s, Handle(i, Q.Take(c))).Some? || Do(s, Handle(i, Q.Apply(c, true))).Some?
           || Do(s, Handle(i, Q.Recheck(c))).Some? || Do(s, Handle(i, Q.Relock(c))).Some?
  {
    assert ShareInv(s.shares[i]);
    Q.NeverStuck(s.shares[i].q, c);
  }

  /** Each share gets four handlers. */
  lemma FourHandlers<T>(s: State<T>, i: nat)
    requires Inv(s) && i < |s.shares|
    ensures |s.shares| == 8 && s.shares[i].spawned <= 4
    ensures forall c: nat :: c in s.shares[i].q.threads <==> c < s.shares[i].spawned
    ensures i < s.started ==> (Do(s, StartHandler(i)).Some? <==> s.shares[i].spawned < 4)
    ensures s.shares[i].ended ==> s.shares[i].q.threads.Keys == {0, 1, 2, 3}
  {
    assert ShareInv(s.shares[i]);
  }

  /** Producers can always draw and deliver; a close can always go on to the next queue, and waits only for the end. */
  lemma OutsidersGoOn<T>(s: State<T>, p: nat, v: T, c: nat)
    requires Inv(s)
    ensures p !in s.producers ==> Do(s, Draw(p, v)).Some?
    ensures p in s.producers ==> Do(s, Deliver(p)).Some?
    ensures c !in s.closers ==> Do(s, CallClose(c)).Some?
    ensures c in s.closers && s.closers[c].Closing? ==>
      if s.closers[c].next < 8
      then Do(s, CloseNext(c)).Some? && !Do(s, CloseNext(c)).value.shares[s.closers[c].next].q.queue.open
      else Do(s, Await(c)).Some? <==> s.done
  {
    assert c in s.closers ==> CloserInv(s, s.closers[c]);
    assert p in s.producers ==> s.producers[p].share < |s.shares|;
  }
}
