/**
 Many limited readers of server/flow_limit.go on one limiter, with other callers of the limiter, the
 clock and parameter changes between any of their steps. A reader's call is a step up to its
 question to the limiter, the steps of that question, and a step that delivers.
 */
module ReaderRuns {
  import opened Bytes
  import opened Prelude
  import opened ReaderValue
  import L = FlowLimitRuns
  import U = FlowLimitUpdates

  datatype Call =
    | Idle
    | Asking(c: nat, room: nat)      // its question is thread `c` of the limiter, its caller has room for `room`
    | Crashed

  datatype Reader = Reader(buf: Buffer, script: seq<Piece>, call: Call)

  datatype State = State(lim: L.State, readers: map<nat, Reader>)

  datatype Event =
    | Begin(x: nat, cancelled: bool, room: nat, c: nat, scratch: bytes)
    | Limiter(a: L.Action)
    | Finish(x: nat)

  function Fresh(script: seq<Piece>): Reader {
    Reader(Buffer(seq(BUFFER, _ => 0), 0, 0, [], []), script, Idle)
  }

  function Start(rate: int, burst: int, now: int, scripts: map<nat, seq<Piece>>): State {
    State(L.Init(rate, burst, now), map x | x in scripts :: Fresh(scripts[x]))
  }

  /** The reader when something is buffered, or there is nothing to be had. */
  function Prepared(d: Reader, cancelled: bool, scratch: bytes): Reader {
    if cancelled || d.buf.llen != 0 then d
    else d.(buf := Filled(d.buf, NextOf(d.script).data, scratch), script := RestOf(d.script))
  }

  /** What is read from below leaves exactly `scratch` behind it in the buffer. */
  predicate Fits(d: Reader, scratch: bytes) {
    |NextOf(d.script).data| + |scratch| == BUFFER
  }

  function DoBegin(s: State, x: nat, cancelled: bool, room: nat, c: nat, scratch: bytes): Option<State> {
    if x !in s.readers || !s.readers[x].call.Idle? || !Fits(s.readers[x], scratch) then None
    else
      var d := s.readers[x];
      var d' := Prepared(d, cancelled, scratch);
      if FaultOf(d.buf.llen, NextOf(d.script), cancelled).Some? then Some(s.(readers := s.readers[x := d']))
      else if d'.buf.llen < 0 then None
      else match L.Do(s.lim, L.Call(c, d'.buf.llen))
        case None => None
        case Some(lim) => Some(State(lim, s.readers[x := d'.(call := Asking(c, room))]))
  }

  function DoFinish(s: State, x: nat): Option<State> {
    if x !in s.readers || !s.readers[x].call.Asking? || !Shaped(s.readers[x].buf) then None
    else
      var d := s.readers[x];
      if d.call.c !in s.lim.threads || !s.lim.threads[d.call.c].Left? then None
      else
        var d' := match Drained(d.buf, Size(d.call.room, s.lim.threads[d.call.c].grant))
          case None => d.(call := Crashed)
          case Some(buf) => d.(buf := buf, call := Idle);
        Some(s.(readers := s.readers[x := d']))
  }

  function Do(s: State, e: Event): Option<State> {
    match e
    case Begin(x, cancelled, room, c, scratch) => DoBegin(s, x, cancelled, room, c, scratch)
    case Limiter(a) => (match L.Do(s.lim, a) case None => None case Some(lim) => Some(s.(lim := lim)))
    case Finish(x) => DoFinish(s, x)
  }

  function Exec(s: State, run: seq<Event>): Option<State>
    decreases |run|
  {
    if run == [] then Some(s)
    else match Do(s, run[0]) case None => None case Some(s') => Exec(s', run[1..])
  }

  // ----- what careful runs keep

  /** No byte is lost, invented or moved, and an open question is for all that is buffered. */
  ghost predicate ReaderOk(lim: L.State, d: Reader) {
    && Sound(d.buf) && AllFit(d.script) && !d.call.Crashed?
    && (d.call.Asking? ==> d.call.c in lim.threads && lim.threads[d.call.c].want == d.buf.llen > 0)
  }

  ghost predicate Inv(s: State) {
    L.Inv(s.lim) && forall x <- s.readers :: ReaderOk(s.lim, s.readers[x])
  }

  /** A call of the limiter never forgets what it asked for. */
  lemma WantStays(lim: L.State, a: L.Action, c: nat)
    requires c in lim.threads && L.Do(lim, a).Some?
    ensures var lim' := L.Do(lim, a).value; c in lim'.threads && lim'.threads[c].want == lim.threads[c].want
  {
  }

  lemma LimiterKeepsInv(s: State, a: L.Action)
    requires Inv(s) && L.Do(s.lim, a).Some? && (a.Update? ==> L.UpdateHarmless(s.lim, a.rate))
    ensures Inv(Do(s, Limiter(a)).value)
  {
    L.StepKeepsInv(s.lim, a);
    forall x <- s.readers ensures ReaderOk(L.Do(s.lim, a).value, s.readers[x]) {
      var d := s.readers[x];
      if d.call.Asking? { WantStays(s.lim, a, d.call.c); }
    }
  }

  lemma PreparedOk(lim: L.State, d: Reader, cancelled: bool, scratch: bytes)
    requires ReaderOk(lim, d) && d.call.Idle? && Fits(d, scratch)
    ensures ReaderOk(lim, Prepared(d, cancelled, scratch))
  {
    if !cancelled && d.buf.llen == 0 {
      FillKeepsSound(d.buf, NextOf(d.script).data, scratch);
    }
  }

  lemma BeginKeepsInv(s: State, e: Event)
    requires Inv(s) && e.Begin? && Do(s, e).Some?
    ensures Inv(Do(s, e).value)
  {
    var d := s.readers[e.x];
    var d' := Prepared(d, e.cancelled, e.scratch);
    PreparedOk(s.lim, d, e.cancelled, e.scratch);
    if FaultOf(d.buf.llen, NextOf(d.script), e.cancelled).None? {
      var a := L.Call(e.c, d'.buf.llen);
      LimiterKeepsInv(s, a);
      assert L.Do(s.lim, a).value.threads[e.c].want == d'.buf.llen;
    }
  }

  lemma FinishKeepsInv(s: State, x: nat)
    requires Inv(s) && Do(s, Finish(x)).Some?
    ensures Inv(Do(s, Finish(x)).value)
  {
    var d := s.readers[x];
    assert ReaderOk(s.lim, d);
    var t := s.lim.threads[d.call.c];
    assert L.ThreadOk(s.lim, d.call.c, t);
    SoundIff(d.buf, Size(d.call.room, t.grant));
  }

  /** Every update of the run comes when it does no harm to a grant in progress. */
  ghost predicate Careful(s: State, run: seq<Event>)
    requires Exec(s, run).Some?
    decreases |run|
  {
    run != [] ==>
      && (run[0].Limiter? && run[0].a.Update? ==> L.UpdateHarmless(s.lim, run[0].a.rate))
      && Careful(Do(s, run[0]).value, run[1..])
  }

  lemma {:induction false} CarefulRunsKeepInv(s: State, run: seq<Event>)
    requires Inv(s) && Exec(s, run).Some? && Careful(s, run)
    ensures Inv(Exec(s, run).value)
    decreases |run|
  {
    if run != [] {
      var e := run[0];
      if e.Begin? {
        BeginKeepsInv(s, e);
      } else if e.Finish? {
        FinishKeepsInv(s, e.x);
      } else {
        LimiterKeepsInv(s, e.a);
      }
      CarefulRunsKeepInv(Do(s, e).value, run[1..]);
    }
  }

  /**
   In every run whose updates are harmless, for every reader on the limiter and whatever is below
   it: bytes delivered followed by bytes still buffered are the bytes consumed, and no slice is
   out of bounds.
   */
  lemma ReadersStaySound(rate: int, burst: int, now: int, scripts: map<nat, seq<Piece>>, run: seq<Event>, x: nat)
    requires forall y <- scripts :: AllFit(scripts[y])
    requires var s := Start(rate, burst, now, scripts); Exec(s, run).Some? && Careful(s, run)
    ensures var s := Exec(Start(rate, burst, now, scripts), run).value;
      x in s.readers ==> Sound(s.readers[x].buf) && !s.readers[x].call.Crashed?
  {
    L.StartKeepsInv(rate, burst, now);
    CarefulRunsKeepInv(Start(rate, burst, now, scripts), run);
    var s := Exec(Start(rate, burst, now, scripts), run).value;
    assert x in s.readers ==> ReaderOk(s.lim, s.readers[x]);
  }

  // ----- a run with a harmful update

  function Lifted(run: seq<L.Action>): seq<Event> {
    seq(|run|, i requires 0 <= i < |run| => Limiter(run[i]))
  }

  /** A run of the limiter alone. */
  lemma {:induction false} LiftedRuns(s: State, run: seq<L.Action>)
    requires L.Exec(s.lim, run).Some?
    ensures Exec(s, Lifted(run)) == Some(s.(lim := L.Exec(s.lim, run).value))
    decreases |run|
  {
    if run != [] {
      assert Lifted(run)[1..] == Lifted(run[1..]);
      LiftedRuns(Do(s, Limiter(run[0])).value, run[1..]);
    }
  }

  lemma {:induction false} Extend(s: State, run: seq<Event>, e: Event)
    requires Exec(s, run).Some?
    ensures Exec(s, run + [e]) == Do(Exec(s, run).value, e)
    decreases |run|
  {
    if run == [] {
      assert run + [e] == [e] && [e][1..] == [];
    } else {
      assert (run + [e])[1..] == run[1..] + [e];
      Extend(Do(s, run[0]).value, run[1..], e);
    }
  }

  /** Six bytes arrive at reader 0, in front of `scratch`, and it asks the limiter for them. */
  function AskedState(data: bytes, scratch: bytes): State {
    var s := Start(5, 80, 0, map[0 := [Piece(data, None)]]);
    var buf := Filled(s.readers[0].buf, data, scratch);
    State(L.Do(s.lim, L.Call(0, 6)).value, map[0 := Reader(buf, [], Asking(0, BUFFER))])
  }

  lemma Asks(data: bytes, scratch: bytes)
    requires |data| == 6 && |scratch| == BUFFER - 6
    ensures Do(Start(5, 80, 0, map[0 := [Piece(data, None)]]), Begin(0, false, BUFFER, 0, scratch))
            == Some(AskedState(data, scratch))
  {
    var s := Start(5, 80, 0, map[0 := [Piece(data, None)]]);
    var d := Fresh([Piece(data, None)]);
    assert s.readers == map[0 := d] && RestOf(d.script) == [];
    var s' := Do(s, Begin(0, false, BUFFER, 0, scratch)).value;
    assert s'.readers == AskedState(data, scratch).readers;
  }

  /** A grant of nine for the six bytes. */
  lemma DeliversStale(s: State, data: bytes, scratch: bytes)
    requires |data| == 6 && |scratch| == BUFFER - 6
    requires s.readers == AskedState(data, scratch).readers
    requires 0 in s.lim.threads && s.lim.threads[0].Left? && s.lim.threads[0].grant == 9
    ensures Do(s, Finish(0)).Some? && 0 in Do(s, Finish(0)).value.readers
    ensures var d := Do(s, Finish(0)).value.readers[0];
      d.buf.consumed == data && d.buf.delivered == data + scratch[..3] && d.buf.llen == -3 && d.call.Idle?
  {
    assert (data + scratch)[..9] == data + scratch[..3];
  }

  /**
   A reader that got six bytes delivers nine of them when the rate is raised from 5 to 9 before
   the deduction of its grant: the last three are whatever the reader below left in the buffer.
   */
  lemma StaleRun(data: bytes, scratch: bytes) returns (run: seq<Event>)
    requires |data| == 6 && |scratch| == BUFFER - 6
    ensures var s := Start(5, 80, 0, map[0 := [Piece(data, None)]]);
      && Exec(s, run).Some? && 0 in Exec(s, run).value.readers
      && var d := Exec(s, run).value.readers[0];
         d.buf.consumed == data && d.buf.delivered == data + scratch[..3] && d.buf.llen == -3 && d.call.Idle?
  {
    var s, s1 := Start(5, 80, 0, map[0 := [Piece(data, None)]]), AskedState(data, scratch);
    Asks(data, scratch);
    var limRun := U.ExcessRun();
    LiftedRuns(s1, limRun[1..]);
    run := [Begin(0, false, BUFFER, 0, scratch)] + Lifted(limRun[1..]);
    assert run[1..] == Lifted(limRun[1..]);
    DeliversStale(Exec(s, run).value, data, scratch);
    Extend(s, run, Finish(0));
    run := run + [Finish(0)];
  }

  /** A reader in that state never consumes or delivers another byte. */
  lemma {:induction false} NothingAfterwards(s: State, run: seq<Event>, x: nat)
    requires x in s.readers && s.readers[x].buf.llen < 0 && s.readers[x].call.Idle? && Exec(s, run).Some?
    ensures x in Exec(s, run).value.readers && Exec(s, run).value.readers[x] == s.readers[x]
    decreases |run|
  {
    if run != [] {
      assert Do(s, run[0]).value.readers[x] == s.readers[x];
      NothingAfterwards(Do(s, run[0]).value, run[1..], x);
    }
  }

  // ----- what the calls of a reader come to

  /** What is handed out are the next bytes of the buffer. */
  lemma DrainedInOrder(b: Buffer, k: nat)
    requires Sound(b) && k <= b.llen
    ensures Drained(b, k).Some? && Sound(Drained(b, k).value)
    ensures var b' := Drained(b, k).value;
      && b'.consumed == b.consumed && b'.delivered == b.delivered + Buffered(b)[..k]
      && Buffered(b') == Buffered(b)[k..]
  {
    SoundIff(b, k);
    assert Buffered(b)[..k] == b.temp[b.off..b.off + k];
  }

  /** A call that the limiter has answered delivers: one byte after a refusal, else as much as was granted and fits. */
  lemma FinishDelivers(s: State, x: nat)
    requires Inv(s) && x in s.readers && s.readers[x].call.Asking?
    requires s.lim.threads[s.readers[x].call.c].Left?
    ensures Do(s, Finish(x)).Some? && x in Do(s, Finish(x)).value.readers
    ensures var d := s.readers[x]; var grant := s.lim.threads[d.call.c].grant;
      var most := if grant <= 0 then 1 else grant;
      var n := if d.call.room <= most then d.call.room else most;
      var d' := Do(s, Finish(x)).value.readers[x];
      && n <= d.buf.llen && d'.call.Idle? && d'.script == d.script && d'.buf.consumed == d.buf.consumed
      && d'.buf.delivered == d.buf.delivered + Buffered(d.buf)[..n] && Buffered(d'.buf) == Buffered(d.buf)[n..]
  {
    var d := s.readers[x];
    assert ReaderOk(s.lim, d);
    var t := s.lim.threads[d.call.c];
    assert L.ThreadOk(s.lim, d.call.c, t);
    DrainedInOrder(d.buf, Size(d.call.room, t.grant));
  }

  /** A call that is not cancelled and has or gets something asks the limiter for all that is buffered. */
  lemma BeginAsks(s: State, x: nat, room: nat, c: nat, scratch: bytes)
    requires Inv(s) && x in s.readers && s.readers[x].call.Idle? && Fits(s.readers[x], scratch) && c !in s.lim.threads
    requires var d := s.readers[x]; d.buf.llen > 0 || (NextOf(d.script).err.None? && NextOf(d.script).data != [])
    ensures Do(s, Begin(x, false, room, c, scratch)).Some?
    ensures var d := s.readers[x]; var s' := Do(s, Begin(x, false, room, c, scratch)).value;
      && x in s'.readers && s'.readers[x].call == Asking(c, room)
      && c in s'.lim.threads && s'.lim.threads[c].want == s'.readers[x].buf.llen
      && s'.readers[x].buf.llen == (if d.buf.llen > 0 then d.buf.llen else |NextOf(d.script).data|)
      && s'.readers[x].buf.consumed == d.buf.consumed + if d.buf.llen > 0 then [] else NextOf(d.script).data
  {
    assert ReaderOk(s.lim, s.readers[x]);
  }
}
