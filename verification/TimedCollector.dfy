/**
 The collector with a deadline, utils/taskRunManager/chanTask.go: a goroutine forwards the
 results of the plain collector into a channel of its own until that ends or time runs out.
 */
module TimedCollector {
  import opened Prelude
  import opened ResultCollector

  datatype Timed<V> = Timed(
    inner: State<V>,        // its parent context is the one with the deadline
    outBuf: seq<V>,         // what the outer channel holds
    drained: seq<V>,        // what has been received from it
    outDropped: nat,        // forwards that took the default branch
    ended: bool,            // the forwarding goroutine has returned
    outCloses: nat,
    inTime: bool)           // it returned because the inner channel was closed and empty

  datatype Event<V> =
    | Inner(a: Action<V>)   // the collector, or the deadline passing
    | Forward | OutOfTime | InnerClosed | Drain

  function Begin<V>(n: nat, pool: nat, total: nat): Timed<V> {
    Timed(Init(n, pool, total), [], [], 0, false, 0, false)
  }

  /** Returning closes the outer channel and cancels the context with the deadline. */
  function End<V>(t: Timed<V>, inTime: bool): Timed<V> {
    t.(ended := true, outCloses := t.outCloses + 1, inTime := inTime, inner := t.inner.(parent := true))
  }

  function Next<V>(t: Timed<V>, e: Event<V>): Option<Timed<V>> {
    match e
    case Inner(a) =>
      if a.Receive? then None
      else (match Do(t.inner, a) case None => None case Some(s) => Some(t.(inner := s)))
    case Forward =>
      if t.ended || t.inner.buf == [] then None
      else
        var v := t.inner.buf[0];
        var t' := t.(inner := Do(t.inner, Receive).value);
        Some(if |t.outBuf| < t.inner.n then t'.(outBuf := t.outBuf + [v]) else t'.(outDropped := t.outDropped + 1))
    case OutOfTime => if !t.ended && t.inner.parent then Some(End(t, false)) else None
    case InnerClosed => if !t.ended && t.inner.closed && t.inner.buf == [] then Some(End(t, true)) else None
    case Drain =>
      if t.outBuf == [] then None else Some(t.(outBuf := t.outBuf[1..], drained := t.drained + [t.outBuf[0]]))
  }

  function RunTimed<V>(t: Timed<V>, run: seq<Event<V>>): Option<Timed<V>>
    decreases |run|
  {
    if run == [] then Some(t)
    else match Next(t, run[0]) case None => None case Some(t') => RunTimed(t', run[1..])
  }

  ghost predicate TimedInv<V>(t: Timed<V>) {
    && Inv(t.inner) && OwnResults(t.inner)
    && t.outDropped == 0
    && t.inner.received == t.drained + t.outBuf
    && t.outCloses == (if t.ended then 1 else 0)
    && (t.inTime ==> t.ended && t.inner.closed && t.inner.buf == [])
    && (t.ended ==> t.inner.parent)
  }

  lemma SentFits<V>(s: State<V>)
    requires Inv(s)
    ensures |s.received| + |s.buf| <= s.n
  {
    SubsetSize(s.sentBy, s.claimed);
  }

  lemma SenderFindsOpen<V>(s: State<V>, a: Action<V>)
    requires Inv(s) && a.Send? && DoWorker(s, a).Some?
    ensures !s.closed
  {
    SendFindsRoom(s, a.i);
  }

  lemma WorkerLeavesChannel<V>(s: State<V>, a: Action<V>)
    requires s.closed && IsWorkerAction(a) && !a.Send? && DoWorker(s, a).Some?
    ensures var s' := DoWorker(s, a).value; s'.closed && s'.buf == s.buf
  {
  }

  /** Once closed, the channel only loses what is received from it. */
  lemma ClosedStaysClosed<V>(s: State<V>, a: Action<V>)
    requires Inv(s) && s.closed && !a.Receive? && Do(s, a).Some?
    ensures Do(s, a).value.closed && Do(s, a).value.buf == s.buf
  {
    if a.Send? {
      SenderFindsOpen(s, a);
    } else if IsWorkerAction(a) {
      WorkerLeavesChannel(s, a);
    }
  }

  lemma ReceivedOnlyByForwarding<V>(s: State<V>, a: Action<V>)
    requires !a.Receive? && Do(s, a).Some?
    ensures Do(s, a).value.received == s.received && Do(s, a).value.n == s.n
    ensures s.parent ==> Do(s, a).value.parent
  {
    StepKeepsSetting(s, a);
  }

  lemma InnerKeepsTimedInv<V>(t: Timed<V>, a: Action<V>)
    requires TimedInv(t) && Next(t, Inner(a)).Some?
    ensures TimedInv(Next(t, Inner(a)).value)
  {
    StepKeepsInvariant(t.inner, a);
    StepKeepsResults(t.inner, a);
    ReceivedOnlyByForwarding(t.inner, a);
    if t.inTime {
      ClosedStaysClosed(t.inner, a);
    }
  }

  lemma OuterKeepsTimedInv<V>(t: Timed<V>, e: Event<V>)
    requires TimedInv(t) && !e.Inner? && Next(t, e).Some?
    ensures TimedInv(Next(t, e).value)
  {
    match e
    case Forward =>
      var v := t.inner.buf[0];
      StepKeepsInvariant(t.inner, Receive);
      StepKeepsResults(t.inner, Receive);
      SentFits(t.inner);
      assert t.drained + t.outBuf + [v] == t.drained + (t.outBuf + [v]);
    case Drain =>
      assert t.drained + t.outBuf == t.drained + [t.outBuf[0]] + t.outBuf[1..];
    case _ =>
      StepKeepsInvariant(t.inner, CancelParent);
      StepKeepsResults(t.inner, CancelParent);
  }

  lemma {:induction false} RunsKeepTimedInv<V>(t: Timed<V>, run: seq<Event<V>>)
    requires TimedInv(t) && RunTimed(t, run).Some?
    ensures TimedInv(RunTimed(t, run).value)
    decreases |run|
  {
    if run != [] {
      if run[0].Inner? { InnerKeepsTimedInv(t, run[0].a); } else { OuterKeepsTimedInv(t, run[0]); }
      RunsKeepTimedInv(Next(t, run[0]).value, run[1..]);
    }
  }

  /**
   In every interleaving the outer channel carries a prefix of what the collector sent, in
   order and without losing a value, and is closed exactly once when the forwarder ends; if the
   collector ended in time it carries everything. When the forwarder has ended, the context of the
   collector is cancelled.
   */
  lemma ForwardsFaithfully<V>(n: nat, pool: nat, total: nat, run: seq<Event<V>>)
    requires RunTimed(Begin<V>(n, pool, total), run).Some?
    ensures var t := RunTimed(Begin<V>(n, pool, total), run).value;
      && t.drained + t.outBuf <= t.inner.sent && t.outDropped == 0 && t.outCloses <= 1 && (t.ended ==> t.outCloses == 1)
      && (t.inTime ==> t.drained + t.outBuf == t.inner.sent)
      && (t.ended ==> t.inner.parent)
  {
    StartKeepsInv<V>(n, pool, total);
    RunsKeepTimedInv(Begin<V>(n, pool, total), run);
    var t := RunTimed(Begin<V>(n, pool, total), run).value;
    assert t.inner.sent == t.inner.received + t.inner.buf;
  }

  /** Until it ends, the forwarder passes on what there is; it ends if and only if the collector's channel is closed and
      empty, or its context is cancelled, as it is when time is up. */
  lemma ForwarderGoesOn<V>(t: Timed<V>)
    requires TimedInv(t)
    ensures Next(t, Forward).Some? <==> !t.ended && t.inner.buf != []
    ensures Next(t, Forward).Some? ==>
      var t' := Next(t, Forward).value; t'.drained + t'.outBuf == t.drained + t.outBuf + [t.inner.buf[0]]
    ensures Next(t, InnerClosed).Some? <==> !t.ended && t.inner.buf == [] && t.inner.closed
    ensures Next(t, InnerClosed).Some? ==> Next(t, InnerClosed).value.inTime && Next(t, InnerClosed).value.ended
    ensures Next(t, OutOfTime).Some? <==> !t.ended && t.inner.parent
    ensures Next(t, OutOfTime).Some? ==> Next(t, OutOfTime).value.ended && !Next(t, OutOfTime).value.inTime
  {
    if !t.ended && t.inner.buf != [] {
      SentFits(t.inner);
      assert t.drained + t.outBuf + [t.inner.buf[0]] == t.drained + (t.outBuf + [t.inner.buf[0]]);
    }
  }

  /** What happens inside happens as without a deadline, and the deadline can pass at any time. */
  lemma InnerGoesOn<V>(t: Timed<V>, a: Action<V>)
    requires !a.Receive? && Do(t.inner, a).Some?
    ensures Next(t, Inner(a)) == Some(t.(inner := Do(t.inner, a).value))
    ensures a.CancelParent? ==> Do(t.inner, a).value == t.inner.(parent := true)
  {
  }
}
