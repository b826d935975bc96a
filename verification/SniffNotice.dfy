/**
 The one-shot sniffing wrapper of server/sniffing/conn.go as a transition system: one reader,
 any number of writers and closers. A step is one atomic load or swap, one call of the wrapped
 connection, one critical section, or the callback.
 */
module SniffNotice {
  import opened Bytes
  import opened Prelude

  datatype Reader =
    | Away                       // not in a call
    | Entered                    // saw that the wrapper is started
    | HasRead(data: bytes)       // read from below
    | Appending(data: bytes)     // saw that no notice was given, about to lock

  datatype Writer =
    | Inside                     // saw that the wrapper is started, about to write below
    | Wrote                      // wrote below, about to swap the notice flag
    | Won                        // was the one to set it, about to lock
    | Took(arg: bytes)           // took the buffer, about to call back
    | Through

  datatype Closer = Stopped | Gone   // reset the start flag, about to drop the buffer; done

  datatype State = State(
    init: bytes,
    hasCallback: bool,
    started: bool,
    noticed: bool,
    buf: Option<bytes>,          // None is nil
    reader: Reader,
    writers: map<nat, Writer>,
    closers: map<nat, Closer>,
    history: seq<bytes>,         // what the reads from below returned, in order
    kept: nat,                   // how many of them went into the buffer
    winner: Option<nat>,         // who set the notice flag
    taken: Option<nat>,          // how many reads were in the buffer when it was taken
    calls: seq<bytes>)           // the arguments of the callback so far

  datatype Action =
    | Enter
    | ReadBelow(data: bytes)
    | LookNotice
    | Append
    | BeginWrite(w: nat)
    | WriteBelow(w: nat)
    | SetNotice(w: nat)
    | TakeBuffer(w: nat)
    | CallBack(w: nat)
    | Stop(c: nat)
    | Drop(c: nat)

  function Init(init: bytes, hasCallback: bool): State {
    State(init, hasCallback, true, false, Some(init), Away, map[], map[], [], 0, None, None, [])
  }

  /** A step of the reader. */
  function DoReader(s: State, a: Action): Option<State>
    requires a.Enter? || a.ReadBelow? || a.LookNotice? || a.Append?
  {
    match a
    case Enter =>
      if !s.reader.Away? then None
      else if s.started then Some(s.(reader := Entered)) else Some(s)
    case ReadBelow(data) =>
      if s.reader.Entered? then Some(s.(reader := HasRead(data), history := s.history + [data])) else None
    case LookNotice =>
      if !s.reader.HasRead? then None
      else Some(s.(reader := if s.noticed then Away else Appending(s.reader.data)))
    case Append =>
      if !s.reader.Appending? then None
      else if s.buf.None? then Some(s.(reader := Away))
      else Some(s.(reader := Away, buf := Some(s.buf.value + s.reader.data), kept := s.kept + 1))
  }

  function Move(s: State, w: nat, pc: Writer): State {
    s.(writers := s.writers[w := pc])
  }

  /** A step of a writer. */
  function DoWriter(s: State, a: Action): Option<State>
    requires a.BeginWrite? || a.WriteBelow? || a.SetNotice? || a.TakeBuffer? || a.CallBack?
  {
    if a.BeginWrite? then
      if a.w in s.writers then None else Some(Move(s, a.w, if s.started then Inside else Through))
    else if a.w !in s.writers then None
    else
      var pc := s.writers[a.w];
      match a
      case WriteBelow(w) => if pc.Inside? then Some(Move(s, w, Wrote)) else None
      case SetNotice(w) =>
        if !pc.Wrote? then None
        else if s.noticed then Some(Move(s, w, Through))
        else Some(Move(s, w, if s.hasCallback then Won else Through).(noticed := true, winner := Some(w)))
      case TakeBuffer(w) =>
        if !pc.Won? then None
        else if s.buf.None? then Some(Move(s, w, Through))
        else Some(Move(s, w, Took(s.buf.value)).(buf := None, taken := Some(s.kept)))
      case CallBack(w) =>
        if pc.Took? then Some(Move(s, w, Through).(calls := s.calls + [pc.arg])) else None
  }

  /** A step of a closer. */
  function DoCloser(s: State, a: Action): Option<State>
    requires a.Stop? || a.Drop?
  {
    match a
    case Stop(c) =>
      if c in s.closers then None
      else if s.started then Some(s.(started := false, closers := s.closers[c := Stopped]))
      else Some(s.(closers := s.closers[c := Gone]))
    case Drop(c) =>
      if c !in s.closers || !s.closers[c].Stopped? then None
      else Some(s.(buf := None, closers := s.closers[c := Gone]))
  }

  function Do(s: State, a: Action): Option<State> {
    if a.Enter? || a.ReadBelow? || a.LookNotice? || a.Append? then DoReader(s, a)
    else if a.Stop? || a.Drop? then DoCloser(s, a)
    else DoWriter(s, a)
  }

  function Exec(s: State, run: seq<Action>): Option<State>
    decreases |run|
  {
    if run == [] then Some(s)
    else match Do(s, run[0]) case None => None case Some(s') => Exec(s', run[1..])
  }

  // ----- what every state keeps

  /** The initial bytes followed by the first `k` reads. */
  function Seen(init: bytes, history: seq<bytes>, k: nat): bytes
    requires k <= |history|
  {
    if k == 0 then init else Seen(init, history, k - 1) + history[k - 1]
  }

  /** The buffer holds the initial bytes and the first reads, and the reader adds the next one or none ever. */
  ghost predicate BufferInv(s: State) {
    && s.kept <= |s.history|
    && (s.buf.Some? ==> s.buf.value == Seen(s.init, s.history, s.kept))
    && (s.buf.Some? ==> match s.reader
          case Appending(data) => s.kept + 1 == |s.history| && data == s.history[s.kept]
          case HasRead(data) => !s.noticed ==> s.kept + 1 == |s.history| && data == s.history[s.kept]
          case _ => !s.noticed ==> s.kept == |s.history|)
  }

  /** What writer `w` may be doing. */
  ghost predicate WriterOk(s: State, w: nat, pc: Writer) {
    && (pc.Won? || pc.Took? ==> s.winner == Some(w) && s.calls == [] && s.hasCallback)
    && (pc.Won? ==> s.taken.None?)
    && (pc.Took? ==> s.taken.Some? && s.taken.value <= |s.history| && pc.arg == Seen(s.init, s.history, s.taken.value))
  }

  ghost predicate NoticeInv(s: State) {
    && (s.noticed <==> s.winner.Some?)
    && (s.winner.Some? ==> s.winner.value in s.writers)
    && (s.winner.Some? ==> !s.writers[s.winner.value].Inside? && !s.writers[s.winner.value].Wrote?)
    && (s.taken.Some? ==> s.noticed && s.buf.None? && s.taken.value <= |s.history|)
    && (s.started && s.buf.None? ==> s.taken.Some?)
    && (forall c <- s.closers :: s.closers[c].Stopped? ==> !s.started)
  }

  ghost predicate CallsInv(s: State) {
    && (s.calls != [] ==> s.taken.Some? && s.taken.value <= |s.history|)
    && (s.calls != [] ==> s.calls == [Seen(s.init, s.history, s.taken.value)])
    && (s.winner.Some? && s.hasCallback && s.started && s.calls == [] ==>
          s.winner.value in s.writers && !s.writers[s.winner.value].Through?)
  }

  ghost predicate Inv(s: State) {
    && BufferInv(s) && NoticeInv(s) && CallsInv(s)
    && forall w <- s.writers :: WriterOk(s, w, s.writers[w])
  }

  lemma {:induction false} SeenLater(init: bytes, history: seq<bytes>, more: bytes, k: nat)
    requires k <= |history|
    ensures Seen(init, history + [more], k) == Seen(init, history, k)
  {
    if k > 0 {
      SeenLater(init, history, more, k - 1);
    }
  }

  lemma ReadKeepsInv(s: State, data: bytes)
    requires Inv(s) && Do(s, ReadBelow(data)).Some?
    ensures Inv(Do(s, ReadBelow(data)).value)
  {
    var s' := Do(s, ReadBelow(data)).value;
    SeenLater(s.init, s.history, data, s.kept);
    if s.taken.Some? {
      SeenLater(s.init, s.history, data, s.taken.value);
    }
    forall w <- s'.writers ensures WriterOk(s', w, s'.writers[w]) {
      assert WriterOk(s, w, s.writers[w]);
    }
  }

  lemma ReaderKeepsInv(s: State, a: Action)
    requires a.Enter? || a.LookNotice? || a.Append?
    requires Inv(s) && Do(s, a).Some?
    ensures Inv(Do(s, a).value)
  {
    var s' := Do(s, a).value;
    forall w <- s'.writers ensures WriterOk(s', w, s'.writers[w]) {
      assert WriterOk(s, w, s.writers[w]);
    }
  }

  /** A writer that has given no notice moves on without touching anything. */
  lemma MoveKeepsInv(s: State, w: nat, pc: Writer)
    requires Inv(s) && (w in s.writers ==> s.writers[w].Inside? || s.writers[w].Wrote?)
    requires pc.Inside? || pc.Wrote? || pc.Through?
    ensures Inv(Move(s, w, pc))
  {
    var s' := Move(s, w, pc);
    forall v <- s'.writers ensures WriterOk(s', v, s'.writers[v]) {
      assert v in s.writers ==> WriterOk(s, v, s.writers[v]);
    }
  }

  lemma SetNoticeKeepsInv(s: State, w: nat)
    requires Inv(s) && Do(s, SetNotice(w)).Some? && !s.noticed
    ensures Inv(Do(s, SetNotice(w)).value)
  {
    var s' := Do(s, SetNotice(w)).value;
    forall v <- s'.writers ensures WriterOk(s', v, s'.writers[v]) {
      assert WriterOk(s, v, s.writers[v]);
    }
  }

  lemma TakeBufferKeepsInv(s: State, w: nat)
    requires Inv(s) && Do(s, TakeBuffer(w)).Some?
    ensures Inv(Do(s, TakeBuffer(w)).value)
  {
    var s' := Do(s, TakeBuffer(w)).value;
    assert WriterOk(s, w, s.writers[w]);
    forall v <- s'.writers ensures WriterOk(s', v, s'.writers[v]) {
      assert WriterOk(s, v, s.writers[v]);
    }
  }

  lemma CallBackKeepsInv(s: State, w: nat)
    requires Inv(s) && Do(s, CallBack(w)).Some?
    ensures Inv(Do(s, CallBack(w)).value)
  {
    var s' := Do(s, CallBack(w)).value;
    assert WriterOk(s, w, s.writers[w]);
    forall v <- s'.writers ensures WriterOk(s', v, s'.writers[v]) {
      assert WriterOk(s, v, s.writers[v]);
    }
  }

  lemma WriterKeepsInv(s: State, a: Action)
    requires a.BeginWrite? || a.WriteBelow? || a.SetNotice? || a.TakeBuffer? || a.CallBack?
    requires Inv(s) && Do(s, a).Some?
    ensures Inv(Do(s, a).value)
  {
    if a.TakeBuffer? {
      TakeBufferKeepsInv(s, a.w);
    } else if a.CallBack? {
      CallBackKeepsInv(s, a.w);
    } else if a.SetNotice? && !s.noticed {
      SetNoticeKeepsInv(s, a.w);
    } else {
      MoveKeepsInv(s, a.w, Do(s, a).value.writers[a.w]);
    }
  }

  lemma CloserKeepsInv(s: State, a: Action)
    requires a.Stop? || a.Drop?
    requires Inv(s) && Do(s, a).Some?
    ensures Inv(Do(s, a).value)
  {
    var s' := Do(s, a).value;
    forall w <- s'.writers ensures WriterOk(s', w, s'.writers[w]) {
      assert WriterOk(s, w, s.writers[w]);
    }
  }

  lemma {:induction false} RunsKeepInv(s: State, run: seq<Action>)
    requires Inv(s) && Exec(s, run).Some?
    ensures Inv(Exec(s, run).value)
    decreases |run|
  {
    if run != [] {
      var a := run[0];
      if a.ReadBelow? {
        ReadKeepsInv(s, a.data);
      } else if a.Enter? || a.LookNotice? || a.Append? {
        ReaderKeepsInv(s, a);
      } else if a.Stop? || a.Drop? {
        CloserKeepsInv(s, a);
      } else {
        WriterKeepsInv(s, a);
      }
      RunsKeepInv(Do(s, a).value, run[1..]);
    }
  }

  /**
   In every interleaving the callback is called at most once, with the initial bytes and the
   first reads for some number of reads; once it has the bytes, nothing is accumulated any more.
   */
  lemma CallsBackOnce(init: bytes, hasCallback: bool, run: seq<Action>)
    requires Exec(Init(init, hasCallback), run).Some?
    ensures var s := Exec(Init(init, hasCallback), run).value;
      s.calls != [] ==> s.buf.None? && exists k: nat :: k <= |s.history| && s.calls == [Seen(init, s.history, k)]
  {
    RunsKeepInv(Init(init, hasCallback), run);
    InitStays(Init(init, hasCallback), run);
  }

  lemma {:induction false} InitStays(s: State, run: seq<Action>)
    requires Exec(s, run).Some?
    ensures Exec(s, run).value.init == s.init && Exec(s, run).value.hasCallback == s.hasCallback
    decreases |run|
  {
    if run != [] {
      var a := run[0];
      assert Do(s, a).value.init == s.init && Do(s, a).value.hasCallback == s.hasCallback;
      InitStays(Do(s, run[0]).value, run[1..]);
    }
  }

  /** Once the buffer has been taken or dropped, no run accumulates another read. */
  lemma {:induction false} NothingKeptAfterwards(s: State, run: seq<Action>)
    requires s.buf.None? && Exec(s, run).Some?
    ensures Exec(s, run).value.buf.None? && Exec(s, run).value.kept == s.kept
    decreases |run|
  {
    if run != [] {
      var s' := Do(s, run[0]).value;
      assert s'.buf.None? && s'.kept == s.kept;
      NothingKeptAfterwards(s', run[1..]);
    }
  }

  /** If the wrapper is not closed, the writer that gave the notice does not return before the callback. */
  lemma NoticeCallsBack(init: bytes, run: seq<Action>, w: nat)
    requires Exec(Init(init, true), run).Some?
    ensures var s := Exec(Init(init, true), run).value;
      s.started && s.winner == Some(w) && w in s.writers && s.writers[w].Through? ==> |s.calls| == 1
  {
    RunsKeepInv(Init(init, true), run);
    InitStays(Init(init, true), run);
  }

  // ----- what the calls come to

  /** One more step, if there was a state to take it from. */
  function Then(o: Option<State>, a: Action): Option<State> {
    match o case None => None case Some(s) => Do(s, a)
  }

  /** Before the notice, a read that runs through is kept: the buffer then holds all that was read so far. */
  lemma ReadIsKept(s: State, data: bytes)
    requires Inv(s) && s.started && !s.noticed && s.buf.Some? && s.reader.Away?
    ensures var r := Then(Then(Then(Then(Some(s), Enter), ReadBelow(data)), LookNotice), Append);
      && r.Some? && r.value.history == s.history + [data] && r.value.reader.Away?
      && r.value.buf == Some(s.buf.value + data) == Some(Seen(s.init, r.value.history, |r.value.history|))
  {
    SeenLater(s.init, s.history, data, s.kept);
  }

  /** A writer that comes first and is not disturbed. */
  function FirstWrite(s: State, w: nat): Option<State> {
    Then(Then(Then(Then(Then(Some(s), BeginWrite(w)), WriteBelow(w)), SetNotice(w)), TakeBuffer(w)), CallBack(w))
  }

  lemma FirstWriteRunsThrough(s: State, w: nat)
    requires Inv(s) && s.started && !s.noticed && s.hasCallback && s.reader.Away? && w !in s.writers
    ensures var r := FirstWrite(s, w);
      && r.Some? && r.value.calls == [Seen(s.init, s.history, |s.history|)] && r.value.noticed && r.value.buf.None?
      && w in r.value.writers && r.value.writers[w].Through?
  {
    var s3 := Then(Then(Then(Some(s), BeginWrite(w)), WriteBelow(w)), SetNotice(w)).value;
    assert s3.writers[w].Won? && s3.buf == s.buf;
    var s4 := Do(s3, TakeBuffer(w)).value;
    assert s4.writers[w] == Took(s.buf.value);
  }

  /**
   In every run: the first writer to come through while the wrapper is open calls back with the
   initial bytes and all that was read so far, if no read is in progress.
   */
  lemma FirstWriterCallsBack(init: bytes, run: seq<Action>, w: nat)
    requires Exec(Init(init, true), run).Some?
    requires var s := Exec(Init(init, true), run).value;
      s.started && !s.noticed && s.reader.Away? && w !in s.writers
    ensures var s := Exec(Init(init, true), run).value;
      FirstWrite(s, w).Some? && FirstWrite(s, w).value.calls == [Seen(init, s.history, |s.history|)]
  {
    RunsKeepInv(Init(init, true), run);
    InitStays(Init(init, true), run);
    FirstWriteRunsThrough(Exec(Init(init, true), run).value, w);
  }

  /** Writers after the first only write, readers after the notice only read, and a closed wrapper does neither. */
  lemma OthersPassThrough(s: State, w: nat)
    ensures w !in s.writers ==>
      Do(s, BeginWrite(w)).Some? && (Do(s, BeginWrite(w)).value.writers[w] == if s.started then Inside else Through)
    ensures w in s.writers && s.writers[w].Wrote? && s.noticed ==>
      Do(s, SetNotice(w)) == Some(s.(writers := s.writers[w := Through]))
    ensures s.reader.Away? ==> Do(s, Enter) == Some(if s.started then s.(reader := Entered) else s)
    ensures s.reader.HasRead? && s.noticed ==> Do(s, LookNotice) == Some(s.(reader := Away))
  {
  }

  /** A close resets the wrapper and drops the buffer; a second one finds nothing to do. */
  lemma CloseDropsBuffer(s: State, c: nat)
    requires c !in s.closers
    ensures Do(s, Stop(c)).Some? && !Do(s, Stop(c)).value.started
    ensures if s.started
      then Do(Do(s, Stop(c)).value, Drop(c)).Some? && Do(Do(s, Stop(c)).value, Drop(c)).value.buf.None?
      else Do(s, Stop(c)).value == s.(closers := s.closers[c := Gone])
  {
  }
}
