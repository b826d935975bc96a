/**
 The result collector of utils/taskRunManager/chanTask.go as a transition system.

 One goroutine starts a task per parameter through a pool and waits for all of them; the
 tasks race to deliver at most `n` results into a channel of capacity `n`, and whoever
 delivers the last one closes it early. A step is one atomic access.
 */
module ResultCollector {
  import opened Prelude

  /** Where a task stands. */
  datatype Worker<V> =
    | Absent                // not started
    | Calling               // inside the task function
    | Checking(v: V)        // the function returned a result, about to look at the context
    | Claiming(v: V)        // about to decrement resultCount
    | Losing                // resultCount went below zero, about to cancel
    | Sending(v: V)         // about to send without blocking
    | Counting              // sent, about to decrement enterCount
    | Winning               // enterCount reached zero, about to cancel
    | Shutting              // about to close the channel
    | Freeing               // about to take its token out of the pool
    | Signing               // about to sign off with the wait group
    | Done

  /** Where the starting goroutine stands. */
  datatype Main =
    | Spawning(k: nat)      // about to add task `k` to the wait group, or to wait if there is none
    | Acquiring(k: nat)     // about to put the token of task `k` into the pool
    | Joining               // waiting for the wait group
    | Cancelling            // all tasks are done, about to cancel
    | Closing               // about to close the channel
    | Exited

  datatype State<V> = State(
    n: nat,                 // expectResultCount, also the capacity of the channel
    pool: nat,
    workers: seq<Worker<V>>,
    main: Main,
    resultCount: int,
    enterCount: int,
    parent: bool,           // the parent context is cancelled
    ctx: bool,              // the own context is cancelled
    buf: seq<V>,            // what the channel holds
    closed: bool,
    // what has happened so far
    sent: seq<V>,
    received: seq<V>,
    closes: nat,
    dropped: nat,           // sends that took the default branch
    panicked: bool,         // a send on the closed channel
    added: set<nat>,        // in the wait group
    tokens: set<nat>,       // in the pool
    results: map<nat, V>,   // what the functions that returned a result returned
    order: seq<nat>,        // the tasks that sent, in order
    oks: set<nat>,          // tasks whose function returned a result
    tried: set<nat>,        // tasks that decremented resultCount
    claimed: set<nat>,      // ... and did not go below zero
    sentBy: set<nat>,
    entered: set<nat>)      // tasks that decremented enterCount

  datatype Action<V> =
    | Add | Acquire | AllStarted | Join | MainCancel | MainClose
    | Return(i: nat, r: Option<V>)   // the task function returned, with a result or without
    | Look(i: nat) | Claim(i: nat) | Lose(i: nat) | Send(i: nat) | Count(i: nat) | Win(i: nat) | Shut(i: nat)
    | Free(i: nat) | Sign(i: nat)
    | CancelParent | Receive

  predicate IsMainAction<V>(a: Action<V>) {
    a.Add? || a.Acquire? || a.AllStarted? || a.Join? || a.MainCancel? || a.MainClose?
  }

  predicate IsWorkerAction<V>(a: Action<V>) {
    !IsMainAction(a) && !a.CancelParent? && !a.Receive?
  }

  function Init<V>(n: nat, pool: nat, total: nat): State<V> {
    State(n, pool, seq(total, i => Absent), Spawning(0), n, n, false, false, [], false,
          [], [], 0, 0, false, {}, {}, map[], [], {}, {}, {}, {}, {})
  }

  function Put<V>(s: State<V>, i: nat, w: Worker<V>): State<V>
    requires i < |s.workers|
  {
    s.(workers := s.workers[i := w])
  }

  /** Closing runs once, whoever comes first. */
  function Close<V>(s: State<V>): State<V> {
    if s.closed then s else s.(closed := true, closes := s.closes + 1)
  }

  function DoMain<V>(s: State<V>, a: Action<V>): Option<State<V>>
    requires IsMainAction(a)
  {
    match a
    case Add =>
      if s.main.Spawning? && s.main.k < |s.workers|
      then Some(s.(main := Acquiring(s.main.k), added := s.added + {s.main.k})) else None
    case Acquire =>
      if s.main.Acquiring? && s.main.k < |s.workers| && |s.tokens| < s.pool
      then Some(Put(s, s.main.k, Calling).(main := Spawning(s.main.k + 1), tokens := s.tokens + {s.main.k})) else None
    case AllStarted =>
      if s.main.Spawning? && s.main.k >= |s.workers| then Some(s.(main := Joining)) else None
    case Join => if s.main.Joining? && s.added == {} then Some(s.(main := Cancelling)) else None
    case MainCancel => if s.main.Cancelling? then Some(s.(main := Closing, ctx := true)) else None
    case MainClose => if s.main.Closing? then Some(Close(s).(main := Exited)) else None
  }

  function DoWorker<V>(s: State<V>, a: Action<V>): Option<State<V>>
    requires IsWorkerAction(a)
  {
    if a.i >= |s.workers| then None
    else
      var w := s.workers[a.i];
      match a
      case Return(i, r) =>
        if !w.Calling? then None
        else if r.Some? then Some(Put(s, i, Checking(r.value)).(oks := s.oks + {i}, results := s.results[i := r.value]))
        else Some(Put(s, i, Freeing))
      case Look(i) =>
        if !w.Checking? then None
        else Some(Put(s, i, if s.ctx || s.parent then Freeing else Claiming(w.v)))
      case Claim(i) =>
        if !w.Claiming? then None
        else
          var s' := s.(resultCount := s.resultCount - 1, tried := s.tried + {i});
          if s'.resultCount < 0 then Some(Put(s', i, Losing))
          else Some(Put(s', i, Sending(w.v)).(claimed := s.claimed + {i}))
      case Lose(i) => if w.Losing? then Some(Put(s, i, Freeing).(ctx := true)) else None
      case Send(i) =>
        if !w.Sending? then None
        else if s.closed then Some(Put(s, i, Freeing).(panicked := true))
        else if |s.buf| < s.n then
          Some(Put(s, i, Counting).(
            buf := s.buf + [w.v], sent := s.sent + [w.v], sentBy := s.sentBy + {i}, order := s.order + [i]))
        else Some(Put(s, i, Freeing).(dropped := s.dropped + 1))
      case Count(i) =>
        if !w.Counting? then None
        else
          var s' := s.(enterCount := s.enterCount - 1, entered := s.entered + {i});
          Some(Put(s', i, if s'.enterCount == 0 then Winning else Freeing))
      case Win(i) => if w.Winning? then Some(Put(s, i, Shutting).(ctx := true)) else None
      case Shut(i) => if w.Shutting? then Some(Put(Close(s), i, Freeing)) else None
      case Free(i) => if w.Freeing? then Some(Put(s, i, Signing).(tokens := s.tokens - {i})) else None
      case Sign(i) => if w.Signing? then Some(Put(s, i, Done).(added := s.added - {i})) else None
  }

  function Do<V>(s: State<V>, a: Action<V>): Option<State<V>> {
    if IsMainAction(a) then DoMain(s, a)
    else if IsWorkerAction(a) then DoWorker(s, a)
    else if a.CancelParent? then Some(s.(parent := true))
    else if s.buf == [] then None
    else Some(s.(buf := s.buf[1..], received := s.received + [s.buf[0]]))
  }

  function Exec<V>(s: State<V>, run: seq<Action<V>>): Option<State<V>>
    decreases |run|
  {
    if run == [] then Some(s)
    else match Do(s, run[0]) case None => None case Some(s') => Exec(s', run[1..])
  }

  // ----- what every state keeps

  /** How many tasks have been started. */
  function Started<V>(s: State<V>): nat {
    match s.main
    case Spawning(k) => k
    case Acquiring(k) => k
    case _ => |s.workers|
  }

  predicate Finished<V>(s: State<V>) {
    s.main.Cancelling? || s.main.Closing? || s.main.Exited?
  }

  /** A result may be passed over: the parent is cancelled, or all places are taken. */
  predicate Excused<V>(s: State<V>) {
    s.parent || |s.claimed| == s.n
  }

  /** What a task's place says about what it has done. */
  ghost predicate Placed<V>(s: State<V>, i: nat)
    requires i < |s.workers|
  {
    match s.workers[i]
    case Absent => i !in s.oks
    case Calling => i !in s.oks
    case Checking(_) => i in s.oks && i !in s.tried
    case Claiming(_) => i in s.oks && i !in s.tried
    case Losing => i in s.tried && i !in s.claimed && |s.claimed| == s.n
    case Sending(_) => i in s.claimed && i !in s.sentBy
    case Counting => i in s.sentBy && i !in s.entered
    case Winning => i in s.entered && |s.entered| == s.n
    case Shutting => i in s.entered && |s.entered| == s.n
    case _ => (i in s.oks && i !in s.tried ==> Excused(s)) && (i in s.claimed ==> i in s.entered)
  }

  /** What the wait group and the pool hold. */
  ghost predicate Tracked<V>(s: State<V>, i: nat)
    requires i < |s.workers|
  {
    && (s.workers[i].Absent? <==> Started(s) <= i)
    && (i in s.added <==> (!s.workers[i].Absent? && !s.workers[i].Done?) || s.main == Acquiring(i))
    && (i in s.tokens <==> !s.workers[i].Absent? && !s.workers[i].Signing? && !s.workers[i].Done?)
  }

  ghost predicate Counters<V>(s: State<V>) {
    && s.entered <= s.sentBy <= s.claimed <= s.tried <= s.oks
    && (forall i <- s.oks :: i < |s.workers|)
    && (forall i <- s.added :: i < |s.workers|)
    && (forall i <- s.tokens :: i < |s.workers|)
    && s.resultCount == s.n - |s.tried|
    && |s.claimed| == (if |s.tried| < s.n then |s.tried| else s.n)
    && s.enterCount == s.n - |s.entered|
    && |s.sent| == |s.sentBy|
    && s.sent == s.received + s.buf
    && |s.tokens| <= s.pool
  }

  ghost predicate Channel<V>(s: State<V>) {
    && !s.panicked && s.dropped == 0
    && s.closes == (if s.closed then 1 else 0)
    && (s.closed ==> |s.entered| == s.n || s.main.Exited?)
    && (s.main.Exited? ==> s.closed)
    && (s.ctx ==> Excused(s) || Finished(s))
  }

  ghost predicate Inv<V>(s: State<V>) {
    && Started(s) <= |s.workers|
    && (s.main.Acquiring? ==> s.main.k < |s.workers|)
    && (Finished(s) ==> s.added == {})
    && (forall i: nat :: i < |s.workers| ==> Placed(s, i))
    && (forall i: nat :: i < |s.workers| ==> Tracked(s, i))
    && Counters(s)
    && Channel(s)
  }

  lemma {:induction false} SubsetSize(a: set<nat>, b: set<nat>)
    requires a <= b
    ensures |a| <= |b| && (a != b ==> |a| < |b|)
  {
    if a != {} {
      var x :| x in a;
      SubsetSize(a - {x}, b - {x});
    }
  }

  // ----- a step of a task

  /** Two sets that agree except on `i`. */
  ghost predicate AgreeBut(a: set<nat>, b: set<nat>, i: nat) {
    forall j: nat :: j != i ==> (j in a <==> j in b)
  }

  /** Only task `i` moved, and what excuses others still does. */
  ghost predicate OnlyMoved<V>(s: State<V>, s': State<V>, i: nat) {
    && i < |s.workers| == |s'.workers|
    && (forall j: nat :: j < |s.workers| && j != i ==> s'.workers[j] == s.workers[j])
    && AgreeBut(s.oks, s'.oks, i) && AgreeBut(s.tried, s'.tried, i) && AgreeBut(s.claimed, s'.claimed, i)
    && AgreeBut(s.sentBy, s'.sentBy, i) && AgreeBut(s.entered, s'.entered, i)
    && AgreeBut(s.added, s'.added, i) && AgreeBut(s.tokens, s'.tokens, i)
    && s'.main == s.main && s'.n == s.n && s'.pool == s.pool && s'.parent == s.parent
    && (|s.claimed| == s.n ==> |s'.claimed| == s.n)
    && (|s.entered| == s.n ==> |s'.entered| == s.n)
  }

  lemma OthersKeepPlace<V>(s: State<V>, s': State<V>, i: nat)
    requires Inv(s) && OnlyMoved(s, s', i)
    ensures forall j: nat :: j < |s.workers| && j != i ==> Placed(s', j) && Tracked(s', j)
  {
    forall j: nat | j < |s.workers| && j != i ensures Placed(s', j) && Tracked(s', j) {
      assert Placed(s, j) && Tracked(s, j);
    }
  }

  lemma StepKeepsInv<V>(s: State<V>, s': State<V>, i: nat)
    requires Inv(s) && OnlyMoved(s, s', i)
    requires Placed(s', i) && Tracked(s', i) && Counters(s') && Channel(s')
    requires !Finished(s)
    ensures Inv(s')
  {
    OthersKeepPlace(s, s', i);
  }

  /** A task that has not signed off keeps the starting goroutine from finishing. */
  lemma ActiveNotFinished<V>(s: State<V>, i: nat)
    requires Inv(s) && i < |s.workers| && !s.workers[i].Absent? && !s.workers[i].Done?
    ensures !Finished(s)
  {
    assert Tracked(s, i);
  }

  lemma NoResultKeepsInv<V>(s: State<V>, i: nat)
    requires Inv(s) && i < |s.workers| && s.workers[i].Calling?
    ensures Inv(Put(s, i, Freeing))
  {
    assert Placed(s, i) && Tracked(s, i);
    ActiveNotFinished(s, i);
    StepKeepsInv(s, Put(s, i, Freeing), i);
  }

  lemma ResultKeepsInv<V>(s: State<V>, i: nat, v: V)
    requires Inv(s) && i < |s.workers| && s.workers[i].Calling?
    ensures Inv(Put(s, i, Checking(v)).(oks := s.oks + {i}, results := s.results[i := v]))
  {
    assert Placed(s, i) && Tracked(s, i);
    ActiveNotFinished(s, i);
    StepKeepsInv(s, Put(s, i, Checking(v)).(oks := s.oks + {i}, results := s.results[i := v]), i);
  }

  lemma LookKeepsInv<V>(s: State<V>, a: Action<V>)
    requires Inv(s) && a.Look? && DoWorker(s, a).Some?
    ensures Inv(DoWorker(s, a).value)
  {
    var s', i := DoWorker(s, a).value, a.i;
    assert Placed(s, i) && Tracked(s, i);
    ActiveNotFinished(s, i);
    StepKeepsInv(s, s', i);
  }

  lemma ClaimWonKeepsInv<V>(s: State<V>, a: Action<V>)
    requires Inv(s) && a.Claim? && DoWorker(s, a).Some? && s.resultCount > 0
    ensures Inv(DoWorker(s, a).value)
  {
    var s', i := DoWorker(s, a).value, a.i;
    assert Placed(s, i) && Tracked(s, i);
    ActiveNotFinished(s, i);
    StepKeepsInv(s, s', i);
  }

  lemma ClaimLostKeepsInv<V>(s: State<V>, a: Action<V>)
    requires Inv(s) && a.Claim? && DoWorker(s, a).Some? && s.resultCount <= 0
    ensures Inv(DoWorker(s, a).value)
  {
    var s', i := DoWorker(s, a).value, a.i;
    assert Placed(s, i) && Tracked(s, i);
    ActiveNotFinished(s, i);
    StepKeepsInv(s, s', i);
  }

  lemma LoseKeepsInv<V>(s: State<V>, a: Action<V>)
    requires Inv(s) && a.Lose? && DoWorker(s, a).Some?
    ensures Inv(DoWorker(s, a).value)
  {
    var s', i := DoWorker(s, a).value, a.i;
    assert Placed(s, i) && Tracked(s, i);
    ActiveNotFinished(s, i);
    StepKeepsInv(s, s', i);
  }

  /** A task about to send finds the channel open and with room. */
  lemma SendFindsRoom<V>(s: State<V>, i: nat)
    requires Inv(s) && i < |s.workers| && s.workers[i].Sending?
    ensures !s.closed && |s.buf| < s.n
  {
    assert Placed(s, i) && Tracked(s, i);
    SubsetSize(s.sentBy, s.claimed);
    SubsetSize(s.entered, s.sentBy);
  }

  lemma SendKeepsInv<V>(s: State<V>, a: Action<V>)
    requires Inv(s) && a.Send? && DoWorker(s, a).Some?
    ensures Inv(DoWorker(s, a).value)
  {
    var s', i := DoWorker(s, a).value, a.i;
    assert Placed(s, i) && Tracked(s, i);
    SendFindsRoom(s, i);
    ActiveNotFinished(s, i);
    var v := s.workers[i].v;
    assert s.received + (s.buf + [v]) == s.received + s.buf + [v];
    StepKeepsInv(s, s', i);
  }

  lemma CountKeepsInv<V>(s: State<V>, a: Action<V>)
    requires Inv(s) && a.Count? && DoWorker(s, a).Some?
    ensures Inv(DoWorker(s, a).value)
  {
    var s', i := DoWorker(s, a).value, a.i;
    assert Placed(s, i) && Tracked(s, i);
    SubsetSize(s.entered, s.sentBy);
    SubsetSize(s.sentBy, s.claimed);
    ActiveNotFinished(s, i);
    StepKeepsInv(s, s', i);
  }

  lemma WinKeepsInv<V>(s: State<V>, a: Action<V>)
    requires Inv(s) && a.Win? && DoWorker(s, a).Some?
    ensures Inv(DoWorker(s, a).value)
  {
    var s', i := DoWorker(s, a).value, a.i;
    assert Placed(s, i) && Tracked(s, i);
    SubsetSize(s.entered, s.claimed);
    ActiveNotFinished(s, i);
    StepKeepsInv(s, s', i);
  }

  lemma ShutKeepsInv<V>(s: State<V>, a: Action<V>)
    requires Inv(s) && a.Shut? && DoWorker(s, a).Some?
    ensures Inv(DoWorker(s, a).value)
  {
    var s', i := DoWorker(s, a).value, a.i;
    assert Placed(s, i) && Tracked(s, i);
    SubsetSize(s.entered, s.claimed);
    ActiveNotFinished(s, i);
    StepKeepsInv(s, s', i);
  }

  lemma FreeKeepsInv<V>(s: State<V>, a: Action<V>)
    requires Inv(s) && a.Free? && DoWorker(s, a).Some?
    ensures Inv(DoWorker(s, a).value)
  {
    var s', i := DoWorker(s, a).value, a.i;
    assert Placed(s, i) && Tracked(s, i);
    SubsetSize(s'.tokens, s.tokens);
    ActiveNotFinished(s, i);
    StepKeepsInv(s, s', i);
  }

  lemma SignKeepsInv<V>(s: State<V>, a: Action<V>)
    requires Inv(s) && a.Sign? && DoWorker(s, a).Some?
    ensures Inv(DoWorker(s, a).value)
  {
    var s', i := DoWorker(s, a).value, a.i;
    assert Placed(s, i) && Tracked(s, i);
    ActiveNotFinished(s, i);
    StepKeepsInv(s, s', i);
  }

  lemma WorkerKeepsInv<V>(s: State<V>, a: Action<V>)
    requires Inv(s) && IsWorkerAction(a) && DoWorker(s, a).Some?
    ensures Inv(DoWorker(s, a).value)
  {
    match a
    case Return(i, r) => if r.Some? { ResultKeepsInv(s, i, r.value); } else { NoResultKeepsInv(s, i); }
    case Look(_) => LookKeepsInv(s, a);
    case Claim(_) => if s.resultCount > 0 { ClaimWonKeepsInv(s, a); } else { ClaimLostKeepsInv(s, a); }
    case Lose(_) => LoseKeepsInv(s, a);
    case Send(_) => SendKeepsInv(s, a);
    case Count(_) => CountKeepsInv(s, a);
    case Win(_) => WinKeepsInv(s, a);
    case Shut(_) => ShutKeepsInv(s, a);
    case Free(_) => FreeKeepsInv(s, a);
    case Sign(_) => SignKeepsInv(s, a);
  }

  // ----- a step of the starting goroutine, the parent context or the receiver

  lemma SpawnKeepsInv<V>(s: State<V>, a: Action<V>)
    requires Inv(s) && (a.Add? || a.Acquire?) && DoMain(s, a).Some?
    ensures Inv(DoMain(s, a).value)
  {
    var s', k := DoMain(s, a).value, s.main.k;
    assert Placed(s, k) && Tracked(s, k);
    forall j: nat | j < |s.workers| ensures Placed(s', j) && Tracked(s', j) {
      assert Placed(s, j) && Tracked(s, j);
    }
  }

  lemma FinishKeepsInv<V>(s: State<V>, a: Action<V>)
    requires Inv(s) && (a.AllStarted? || a.Join? || a.MainCancel? || a.MainClose?) && DoMain(s, a).Some?
    ensures Inv(DoMain(s, a).value)
  {
    var s' := DoMain(s, a).value;
    forall j: nat | j < |s.workers| ensures Placed(s', j) && Tracked(s', j) {
      assert Placed(s, j) && Tracked(s, j);
    }
  }

  lemma EnvironmentKeepsInv<V>(s: State<V>, a: Action<V>)
    requires Inv(s) && (a.CancelParent? || a.Receive?) && Do(s, a).Some?
    ensures Inv(Do(s, a).value)
  {
    var s' := Do(s, a).value;
    forall j: nat | j < |s.workers| ensures Placed(s', j) && Tracked(s', j) {
      assert Placed(s, j) && Tracked(s, j);
    }
    if a.Receive? {
      assert s.received + s.buf == s.received + [s.buf[0]] + s.buf[1..];
    }
  }

  lemma StartKeepsInv<V>(n: nat, pool: nat, total: nat)
    ensures Inv(Init<V>(n, pool, total)) && OwnResults(Init<V>(n, pool, total))
  {
    var s := Init<V>(n, pool, total);
    forall j: nat | j < |s.workers| ensures Placed(s, j) && Tracked(s, j) {
    }
  }

  // ----- where the values come from

  /** A task carries its own result. */
  ghost predicate Carries<V>(s: State<V>, i: nat)
    requires i < |s.workers|
  {
    var w := s.workers[i];
    w.Checking? || w.Claiming? || w.Sending? ==> i in s.results && w.v == s.results[i]
  }

  /** Every value sent is the result of a task of its own. */
  ghost predicate Values<V>(s: State<V>) {
    && |s.order| == |s.sent|
    && (forall k :: 0 <= k < |s.order| ==> s.order[k] in s.sentBy && s.order[k] in s.results)
    && (forall k :: 0 <= k < |s.order| ==> s.order[k] in s.results && s.sent[k] == s.results[s.order[k]])
    && (forall j, k :: 0 <= j < k < |s.order| ==> s.order[j] != s.order[k])
  }

  ghost predicate OwnResults<V>(s: State<V>) {
    && s.oks == s.results.Keys
    && (forall i: nat :: i < |s.workers| ==> Carries(s, i))
    && Values(s)
  }

  lemma ReturnKeepsResults<V>(s: State<V>, i: nat, v: V)
    requires Inv(s) && OwnResults(s) && i < |s.workers| && s.workers[i].Calling?
    ensures OwnResults(Put(s, i, Checking(v)).(oks := s.oks + {i}, results := s.results[i := v]))
  {
    var s' := Put(s, i, Checking(v)).(oks := s.oks + {i}, results := s.results[i := v]);
    assert Placed(s, i);
    forall j: nat | j < |s.workers| ensures Carries(s', j) { assert Carries(s, j); }
  }

  /** The values sent stay right when one more task sends its own result. */
  lemma SendKeepsValues<V>(s: State<V>, s': State<V>, i: nat)
    requires Values(s) && i in s.results && i !in s.sentBy
    requires s'.order == s.order + [i] && s'.sent == s.sent + [s.results[i]]
    requires s'.sentBy == s.sentBy + {i} && s'.results == s.results
    ensures Values(s')
  {
  }

  lemma SendKeepsResults<V>(s: State<V>, a: Action<V>)
    requires Inv(s) && OwnResults(s) && a.Send? && DoWorker(s, a).Some?
    ensures OwnResults(DoWorker(s, a).value)
  {
    var s', i := DoWorker(s, a).value, a.i;
    assert Placed(s, i) && Carries(s, i);
    SendFindsRoom(s, i);
    SendKeepsValues(s, s', i);
    forall j: nat | j < |s.workers| ensures Carries(s', j) { assert Carries(s, j); }
  }

  /** A task hands its result on or drops it. */
  predicate HandedOn<V(==)>(w: Worker<V>, w': Worker<V>) {
    w' == w || !(w'.Checking? || w'.Claiming? || w'.Sending?) || ((w.Checking? || w.Claiming?) && w.v == w'.v)
  }

  lemma FrameKeepsResults<V>(s: State<V>, s': State<V>)
    requires OwnResults(s) && |s'.workers| == |s.workers|
    requires s'.results == s.results && s'.oks == s.oks && s'.order == s.order && s'.sent == s.sent
    requires s'.sentBy == s.sentBy
    requires forall j: nat :: j < |s.workers| ==> HandedOn(s.workers[j], s'.workers[j])
    ensures OwnResults(s')
  {
    forall j: nat | j < |s.workers| ensures Carries(s', j) { assert Carries(s, j); }
  }

  lemma LookKeepsResults<V>(s: State<V>, i: nat)
    requires OwnResults(s) && DoWorker(s, Look(i)).Some?
    ensures OwnResults(DoWorker(s, Look(i)).value)
  {
    var s' := DoWorker(s, Look(i)).value;
    assert HandedOn(s.workers[i], s'.workers[i]);
    FrameKeepsResults(s, s');
  }

  lemma ClaimKeepsResults<V>(s: State<V>, i: nat)
    requires OwnResults(s) && DoWorker(s, Claim(i)).Some?
    ensures OwnResults(DoWorker(s, Claim(i)).value)
  {
    var s' := DoWorker(s, Claim(i)).value;
    assert HandedOn(s.workers[i], s'.workers[i]);
    FrameKeepsResults(s, s');
  }

  lemma LeaveKeepsResults<V>(s: State<V>, a: Action<V>)
    requires OwnResults(s) && IsWorkerAction(a) && DoWorker(s, a).Some?
    requires !a.Look? && !a.Claim? && !a.Send? && (a.Return? ==> a.r.None?)
    ensures OwnResults(DoWorker(s, a).value)
  {
    var s' := DoWorker(s, a).value;
    assert HandedOn(s.workers[a.i], s'.workers[a.i]);
    FrameKeepsResults(s, s');
  }

  /** The starting goroutine hands nothing on but a fresh task. */
  lemma MainKeepsResults<V>(s: State<V>, a: Action<V>)
    requires OwnResults(s) && IsMainAction(a) && DoMain(s, a).Some?
    ensures OwnResults(DoMain(s, a).value)
  {
    var s' := DoMain(s, a).value;
    if a.Acquire? {
      assert HandedOn(s.workers[s.main.k], Calling);
    } else {
      assert s'.workers == s.workers;
    }
    FrameKeepsResults(s, s');
  }

  lemma EnvironmentKeepsResults<V>(s: State<V>, a: Action<V>)
    requires OwnResults(s) && (a.CancelParent? || a.Receive?) && Do(s, a).Some?
    ensures OwnResults(Do(s, a).value)
  {
    FrameKeepsResults(s, Do(s, a).value);
  }

  lemma StepKeepsResults<V>(s: State<V>, a: Action<V>)
    requires Inv(s) && OwnResults(s) && Do(s, a).Some?
    ensures OwnResults(Do(s, a).value)
  {
    if a.Return? && a.r.Some? {
      ReturnKeepsResults(s, a.i, a.r.value);
    } else if a.Send? {
      SendKeepsResults(s, a);
    } else if a.Look? {
      LookKeepsResults(s, a.i);
    } else if a.Claim? {
      ClaimKeepsResults(s, a.i);
    } else if IsWorkerAction(a) {
      LeaveKeepsResults(s, a);
    } else if IsMainAction(a) {
      MainKeepsResults(s, a);
    } else {
      EnvironmentKeepsResults(s, a);
    }
  }

  lemma StepKeepsInvariant<V>(s: State<V>, a: Action<V>)
    requires Inv(s) && Do(s, a).Some?
    ensures Inv(Do(s, a).value)
  {
    if IsWorkerAction(a) {
      WorkerKeepsInv(s, a);
    } else if a.Add? || a.Acquire? {
      SpawnKeepsInv(s, a);
    } else if IsMainAction(a) {
      FinishKeepsInv(s, a);
    } else {
      EnvironmentKeepsInv(s, a);
    }
  }

  lemma {:induction false} RunsKeepInv<V>(s: State<V>, run: seq<Action<V>>)
    requires Inv(s) && OwnResults(s) && Exec(s, run).Some?
    ensures Inv(Exec(s, run).value) && OwnResults(Exec(s, run).value)
    decreases |run|
  {
    if run != [] {
      StepKeepsInvariant(s, run[0]);
      StepKeepsResults(s, run[0]);
      RunsKeepInv(Do(s, run[0]).value, run[1..]);
    }
  }

  ghost predicate SameSetting<V>(s: State<V>, s': State<V>) {
    s'.n == s.n && s'.pool == s.pool && |s'.workers| == |s.workers|
  }

  lemma WorkerKeepsSetting<V>(s: State<V>, a: Action<V>)
    requires IsWorkerAction(a) && DoWorker(s, a).Some?
    ensures SameSetting(s, DoWorker(s, a).value)
  {
  }

  lemma StepKeepsSetting<V>(s: State<V>, a: Action<V>)
    requires Do(s, a).Some?
    ensures SameSetting(s, Do(s, a).value)
  {
    if IsWorkerAction(a) {
      WorkerKeepsSetting(s, a);
    }
  }

  lemma {:induction false} RunsKeepSetting<V>(s: State<V>, run: seq<Action<V>>)
    requires Exec(s, run).Some?
    ensures SameSetting(s, Exec(s, run).value)
    decreases |run|
  {
    if run != [] {
      StepKeepsSetting(s, run[0]);
      RunsKeepSetting(Do(s, run[0]).value, run[1..]);
    }
  }

  /**
   In every interleaving: at most `n` values are sent, each the result of a different task, and
   they are received in order; nothing is sent on a closed channel, it is closed at most once,
   and the default branch of the send is never taken.
   */
  lemma ChannelIsSafe<V>(n: nat, pool: nat, total: nat, run: seq<Action<V>>)
    requires Exec(Init<V>(n, pool, total), run).Some?
    ensures var s := Exec(Init<V>(n, pool, total), run).value;
      && |s.sent| <= n && s.sent == s.received + s.buf && Values(s)
      && !s.panicked && s.dropped == 0 && s.closes <= 1
      && n - total <= s.resultCount <= n && 0 <= s.enterCount <= n
  {
    StartKeepsInv<V>(n, pool, total);
    RunsKeepInv(Init<V>(n, pool, total), run);
    RunsKeepSetting(Init<V>(n, pool, total), run);
    var s := Exec(Init<V>(n, pool, total), run).value;
    SubsetSize(s.sentBy, s.claimed);
    SubsetSize(s.entered, s.sentBy);
    BoundedSize(s.tried, total);
  }

  lemma {:induction false} BoundedSize(a: set<nat>, total: nat)
    requires forall i <- a :: i < total
    ensures |a| <= total
  {
    if total == 0 {
      assert a == {};
    } else {
      BoundedSize(a - {total - 1}, total - 1);
      assert a <= (a - {total - 1}) + {total - 1};
      SubsetSize(a, (a - {total - 1}) + {total - 1});
    }
  }

  /**
   When the collector has exited the channel has been closed exactly once, and unless the
   parent was cancelled it has delivered as many results as there are, up to `n`.
   */
  lemma DeliversAllItCan<V>(n: nat, pool: nat, total: nat, run: seq<Action<V>>)
    requires Exec(Init<V>(n, pool, total), run).Some?
    requires Exec(Init<V>(n, pool, total), run).value.main.Exited?
    ensures var s := Exec(Init<V>(n, pool, total), run).value;
      && s.closes == 1
      && (!s.parent ==> |s.sent| == if |s.oks| < n then |s.oks| else n)
  {
    StartKeepsInv<V>(n, pool, total);
    RunsKeepInv(Init<V>(n, pool, total), run);
    RunsKeepSetting(Init<V>(n, pool, total), run);
    var s := Exec(Init<V>(n, pool, total), run).value;
    forall i: nat | i < |s.workers| ensures s.workers[i].Done? && Placed(s, i) { assert Tracked(s, i); }
    forall i | i in s.claimed ensures i in s.entered { assert i in s.oks && Placed(s, i); }
    assert s.sentBy == s.claimed;
    if !s.parent && |s.claimed| < n {
      forall i | i in s.oks ensures i in s.tried { assert Placed(s, i); }
      assert s.oks == s.tried;
    }
    SubsetSize(s.claimed, s.oks);
  }
}
