/**
 The bounded task runner of utils/taskRunManager/atomicTask.go as a transition system.

 Any number of threads call Run and Wait; each task runs in a thread of its own. A step is
 one atomic access: a load, a compare-and-swap, a decrement, taking or giving up the lock of
 the condition, going to sleep on it, or a broadcast.
 */
module AtomicTask {
  import opened Prelude

  /** What a call to Block waits for: room for a task, or the end of all tasks. */
  datatype Purpose = ForRoom | ForEnd

  /** Where a calling thread stands. */
  datatype Caller =
    | Idle                        // not inside a call
    | Loading                     // Run: about to load the counter
    | Swapping(count: int)        // Run: loaded `count`, about to compare and swap
    | Blocking(why: Purpose)      // Block: about to lock
    | Checking(why: Purpose)      // Block: holds the lock, about to evaluate the condition
    | Settling(why: Purpose)      // Block: holds the lock, the condition held, about to sleep
    | Asleep(why: Purpose)        // sleeping; the lock is given up
    | Woken(why: Purpose)         // woken by a broadcast, about to lock again
    | Leaving(why: Purpose)       // Block: holds the lock, about to give it up and return
    | Confirming                  // Wait: about to load the counter after Block
  {
    predicate HoldsLock() {
      Checking? || Settling? || Leaving?
    }
  }

  /** Where a task stands; its thread decrements first and releases afterwards. */
  datatype Task =
    | Working                     // between the compare-and-swap and the decrement
    | Counted                     // decremented, about to lock
    | Broadcasting                // holds the lock, about to broadcast
    | Releasing                   // broadcast, about to give up the lock
    | Done
  {
    predicate HoldsLock() {
      Broadcasting? || Releasing?
    }

    /** Its broadcast is still to come. */
    predicate Pending() {
      Working? || Counted? || Broadcasting?
    }
  }

  datatype Owner = ByCaller(c: nat) | ByTask(t: nat)

  datatype State = State(
    limit: int,
    counter: int,
    lock: Option<Owner>,
    callers: map<nat, Caller>,
    tasks: map<nat, Task>)

  datatype Action =
    | CallRun(c: nat)
    | CallWait(c: nat)
    | Load(c: nat)
    | Swap(c: nat, t: nat)        // `t` names the task if one is started
    | Lock(c: nat)
    | Check(c: nat)
    | Sleep(c: nat)
    | Unlock(c: nat)
    | Confirm(c: nat)
    | Finish(t: nat)
    | TaskLock(t: nat)
    | Broadcast(t: nat)
    | TaskUnlock(t: nat)

  function Init(limit: int): State {
    State(limit, 0, None, map[], map[])
  }

  /** The condition given to Block: Run sleeps on a full counter, Wait on a counter that is not zero. */
  predicate MustWait(s: State, why: Purpose) {
    match why
    case ForRoom => s.counter == s.limit
    case ForEnd => s.counter != 0
  }

  function At(s: State, c: nat): Caller {
    if c in s.callers then s.callers[c] else Idle
  }

  function Move(s: State, c: nat, pc: Caller): State {
    s.(callers := s.callers[c := pc])
  }

  function MoveTask(s: State, t: nat, pc: Task): State {
    s.(tasks := s.tasks[t := pc])
  }

  function AfterBlock(why: Purpose): Caller {
    match why case ForRoom => Loading case ForEnd => Confirming
  }

  function WakeAll(callers: map<nat, Caller>): map<nat, Caller> {
    map c | c in callers :: if callers[c].Asleep? then Woken(callers[c].why) else callers[c]
  }

  /** One step of one caller, if that step is possible. */
  function DoCaller(s: State, a: Action): Option<State>
    requires !a.Finish? && !a.TaskLock? && !a.Broadcast? && !a.TaskUnlock?
  {
    var pc := At(s, a.c);
    match a
    case CallRun(c) => if pc.Idle? then Some(Move(s, c, Loading)) else None
    case CallWait(c) => if pc.Idle? then Some(Move(s, c, Blocking(ForEnd))) else None
    case Load(c) => if pc.Loading? then Some(Move(s, c, Swapping(s.counter))) else None
    case Swap(c, t) =>
      if !pc.Swapping? then None
      else if pc.count < s.limit && s.counter == pc.count then
        if t in s.tasks then None
        else Some(MoveTask(Move(s, c, Idle), t, Working).(counter := s.counter + 1))
      else Some(Move(s, c, Blocking(ForRoom)))
    case Lock(c) =>
      if s.lock.Some? then None
      else if pc.Blocking? then Some(Move(s, c, Checking(pc.why)).(lock := Some(ByCaller(c))))
      else if pc.Woken? then Some(Move(s, c, Leaving(pc.why)).(lock := Some(ByCaller(c))))
      else None
    case Check(c) =>
      if !pc.Checking? then None
      else Some(Move(s, c, if MustWait(s, pc.why) then Settling(pc.why) else Leaving(pc.why)))
    case Sleep(c) => if pc.Settling? then Some(Move(s, c, Asleep(pc.why)).(lock := None)) else None
    case Unlock(c) => if pc.Leaving? then Some(Move(s, c, AfterBlock(pc.why)).(lock := None)) else None
    case Confirm(c) =>
      if !pc.Confirming? then None
      else Some(Move(s, c, if s.counter == 0 then Idle else Blocking(ForEnd)))
  }

  /** One step of one task, if that step is possible. */
  function DoTask(s: State, a: Action): Option<State>
    requires a.Finish? || a.TaskLock? || a.Broadcast? || a.TaskUnlock?
  {
    if a.t !in s.tasks then None
    else
      var pc := s.tasks[a.t];
      match a
      case Finish(t) => if pc.Working? then Some(MoveTask(s, t, Counted).(counter := s.counter - 1)) else None
      case TaskLock(t) =>
        if pc.Counted? && s.lock.None? then Some(MoveTask(s, t, Broadcasting).(lock := Some(ByTask(t)))) else None
      case Broadcast(t) =>
        if pc.Broadcasting? then Some(MoveTask(s, t, Releasing).(callers := WakeAll(s.callers))) else None
      case TaskUnlock(t) => if pc.Releasing? then Some(MoveTask(s, t, Done).(lock := None)) else None
  }

  function Do(s: State, a: Action): Option<State> {
    if a.Finish? || a.TaskLock? || a.Broadcast? || a.TaskUnlock? then DoTask(s, a) else DoCaller(s, a)
  }

  /** The state after a run, if every action of it was possible. */
  function Exec(s: State, run: seq<Action>): Option<State>
    decreases |run|
  {
    if run == [] then Some(s)
    else match Do(s, run[0]) case None => None case Some(s') => Exec(s', run[1..])
  }

  // ----- what every state keeps

  ghost function Workers(s: State): set<nat> {
    set t | t in s.tasks && s.tasks[t].Working?
  }

  /** The lock has exactly the owner it names. */
  ghost predicate LockOwned(s: State) {
    && (forall c <- s.callers :: s.callers[c].HoldsLock() <==> s.lock == Some(ByCaller(c)))
    && (forall t <- s.tasks :: s.tasks[t].HoldsLock() <==> s.lock == Some(ByTask(t)))
    && (s.lock.Some? && s.lock.value.ByCaller? ==> s.lock.value.c in s.callers)
    && (s.lock.Some? && s.lock.value.ByTask? ==> s.lock.value.t in s.tasks)
  }

  ghost predicate SomePending(s: State) {
    exists t <- s.tasks :: s.tasks[t].Pending()
  }

  /** A thread that sleeps, or is about to, will still be woken by a broadcast. */
  ghost predicate NoLostWakeup(s: State) {
    forall c <- s.callers :: s.callers[c].Asleep? || s.callers[c].Settling? ==> SomePending(s)
  }

  ghost predicate Inv(s: State) {
    && s.limit >= 1
    && s.counter == |Workers(s)| <= s.limit
    && LockOwned(s)
    && NoLostWakeup(s)
  }

  lemma WorkersUnchanged(s: State, s': State)
    requires s'.tasks == s.tasks
    ensures Workers(s') == Workers(s)
  {
  }

  /** A counter above zero means that a task is working. */
  lemma CountedWorkers(s: State)
    requires s.counter == |Workers(s)| && s.counter > 0
    ensures SomePending(s)
  {
    var t :| t in Workers(s);
    assert s.tasks[t].Pending();
  }

  /** Moving one caller, with the lock taken, kept or given up by it, keeps the invariant. */
  lemma MoveKeepsInv(s: State, c: nat, pc: Caller, lock: Option<Owner>)
    requires Inv(s)
    requires pc.HoldsLock() <==> lock == Some(ByCaller(c))
    requires lock != s.lock ==>
      (lock == Some(ByCaller(c)) && s.lock.None?) || (lock.None? && s.lock == Some(ByCaller(c)))
    requires pc.Asleep? || pc.Settling? ==> SomePending(s)
    ensures Inv(Move(s, c, pc).(lock := lock))
  {
    var s' := Move(s, c, pc).(lock := lock);
    WorkersUnchanged(s, s');
    assert SomePending(s) ==> SomePending(s');
  }

  lemma StartKeepsInv(s: State, c: nat, t: nat)
    requires Inv(s) && s.counter < s.limit && t !in s.tasks && c in s.callers && !s.callers[c].HoldsLock()
    ensures Inv(MoveTask(Move(s, c, Idle), t, Working).(counter := s.counter + 1))
  {
    var s' := MoveTask(Move(s, c, Idle), t, Working).(counter := s.counter + 1);
    assert Workers(s') == Workers(s) + {t};
    assert s'.tasks[t].Pending();
  }

  lemma CallerKeepsInv(s: State, a: Action)
    requires Inv(s) && !a.Finish? && !a.TaskLock? && !a.Broadcast? && !a.TaskUnlock?
    requires DoCaller(s, a).Some?
    ensures Inv(DoCaller(s, a).value)
  {
    var s' := DoCaller(s, a).value;
    if a.Check? && MustWait(s, At(s, a.c).why) {
      CountedWorkers(s);
    }
    if s'.tasks == s.tasks {
      MoveKeepsInv(s, a.c, s'.callers[a.c], s'.lock);
    } else {
      StartKeepsInv(s, a.c, a.t);
    }
  }

  lemma FinishKeepsInv(s: State, t: nat)
    requires Inv(s) && DoTask(s, Finish(t)).Some?
    ensures Inv(DoTask(s, Finish(t)).value)
  {
    var s' := DoTask(s, Finish(t)).value;
    assert Workers(s') == Workers(s) - {t};
    assert s'.tasks[t].Pending();
  }

  /** A task that is no longer working takes or gives up the lock, or broadcasts. */
  lemma ReleaseKeepsInv(s: State, a: Action)
    requires Inv(s) && (a.TaskLock? || a.Broadcast? || a.TaskUnlock?)
    requires DoTask(s, a).Some?
    ensures Inv(DoTask(s, a).value)
  {
    var s' := DoTask(s, a).value;
    assert Workers(s') == Workers(s);
    if a.TaskLock? {
      assert s'.tasks[a.t].Pending();
    } else if a.TaskUnlock? && SomePending(s) {
      var t :| t in s.tasks && s.tasks[t].Pending();
      assert s'.tasks[t].Pending();
    }
  }

  lemma TaskKeepsInv(s: State, a: Action)
    requires Inv(s) && (a.Finish? || a.TaskLock? || a.Broadcast? || a.TaskUnlock?)
    requires DoTask(s, a).Some?
    ensures Inv(DoTask(s, a).value)
  {
    if a.Finish? {
      FinishKeepsInv(s, a.t);
    } else {
      ReleaseKeepsInv(s, a);
    }
  }

  /** Over every run the counter is the number of working tasks, within the limit, and no wakeup is lost. */
  lemma {:induction false} RunsKeepInv(s: State, run: seq<Action>)
    requires Inv(s) && Exec(s, run).Some?
    ensures Inv(Exec(s, run).value)
    decreases |run|
  {
    if run != [] {
      var a := run[0];
      if a.Finish? || a.TaskLock? || a.Broadcast? || a.TaskUnlock? {
        TaskKeepsInv(s, a);
      } else {
        CallerKeepsInv(s, a);
      }
      RunsKeepInv(Do(s, a).value, run[1..]);
    }
  }

  lemma EveryReachableState(limit: int, run: seq<Action>)
    requires limit >= 1 && Exec(Init(limit), run).Some?
    ensures Inv(Exec(Init(limit), run).value)
  {
    assert Workers(Init(limit)) == {};
    RunsKeepInv(Init(limit), run);
  }

  // ----- sleeping threads can always be woken

  lemma ExecOne(s: State, a: Action)
    ensures Exec(s, [a]) == Do(s, a)
  {
    assert [a][1..] == [];
  }

  /** `c` has been woken after the run `run` of threads already inside a call or a task. */
  ghost predicate Wakes(s: State, c: nat, run: seq<Action>) {
    && (forall a <- run :: !a.CallRun? && !a.CallWait? && !a.Load? && !a.Swap? && !a.Confirm?)
    && Exec(s, run).Some?
    && At(Exec(s, run).value, c).Woken?
  }

  lemma WakesAfter(s: State, a: Action, c: nat, run: seq<Action>)
    requires !a.CallRun? && !a.CallWait? && !a.Load? && !a.Swap? && !a.Confirm?
    requires Do(s, a).Some? && Wakes(Do(s, a).value, c, run)
    ensures Wakes(s, c, [a] + run)
  {
    assert ([a] + run)[1..] == run;
  }

  lemma BroadcastWakes(s: State, c: nat, t: nat)
    requires t in s.tasks && s.tasks[t].Broadcasting? && At(s, c).Asleep?
    ensures Wakes(s, c, [Broadcast(t)])
  {
    ExecOne(s, Broadcast(t));
  }

  /** A pending task that finds the lock free wakes the sleeper within three steps. */
  lemma TaskWakes(s: State, c: nat, t: nat) returns (run: seq<Action>)
    requires At(s, c).Asleep? && s.lock.None?
    requires t in s.tasks && (s.tasks[t].Working? || s.tasks[t].Counted?)
    ensures Wakes(s, c, run) && |run| <= 3
  {
    if s.tasks[t].Working? {
      var s1 := Do(s, Finish(t)).value;
      run := TaskWakesCounted(s1, c, t);
      WakesAfter(s, Finish(t), c, run);
      run := [Finish(t)] + run;
    } else {
      run := TaskWakesCounted(s, c, t);
    }
  }

  lemma TaskWakesCounted(s: State, c: nat, t: nat) returns (run: seq<Action>)
    requires At(s, c).Asleep? && s.lock.None? && t in s.tasks && s.tasks[t].Counted?
    ensures Wakes(s, c, run) && |run| == 2
  {
    var s1 := Do(s, TaskLock(t)).value;
    BroadcastWakes(s1, c, t);
    WakesAfter(s, TaskLock(t), c, [Broadcast(t)]);
    run := [TaskLock(t), Broadcast(t)];
    assert [TaskLock(t)] + [Broadcast(t)] == run;
  }

  /**
   From every state of every run, a sleeping caller is woken within five steps of threads that
   already hold the lock or run a task; no new call is needed.
   */
  lemma SleepersCanBeWoken(s: State, c: nat) returns (run: seq<Action>)
    requires Inv(s) && At(s, c).Asleep?
    ensures Wakes(s, c, run) && |run| <= 5
  {
    assert SomePending(s);
    var t :| t in s.tasks && s.tasks[t].Pending();
    if s.lock.None? {
      run := TaskWakes(s, c, t);
    } else if s.lock.value.ByTask? {
      var u := s.lock.value.t;
      if s.tasks[u].Broadcasting? {
        run := [Broadcast(u)];
        BroadcastWakes(s, c, u);
      } else {
        var s1 := Do(s, TaskUnlock(u)).value;
        run := TaskWakes(s1, c, t);
        WakesAfter(s, TaskUnlock(u), c, run);
        run := [TaskUnlock(u)] + run;
      }
    } else {
      var d := s.lock.value.c;
      run := HolderMakesWay(s, c, t, d);
    }
  }

  lemma HolderMakesWay(s: State, c: nat, t: nat, d: nat) returns (run: seq<Action>)
    requires Inv(s) && At(s, c).Asleep? && s.lock == Some(ByCaller(d))
    requires t in s.tasks && s.tasks[t].Pending()
    ensures Wakes(s, c, run) && |run| <= 5
  {
    if s.callers[d].Checking? {
      var s1 := Do(s, Check(d)).value;
      CallerKeepsInv(s, Check(d));
      run := HolderLeaves(s1, c, t, d);
      WakesAfter(s, Check(d), c, run);
      run := [Check(d)] + run;
    } else {
      run := HolderLeaves(s, c, t, d);
    }
  }

  lemma HolderLeaves(s: State, c: nat, t: nat, d: nat) returns (run: seq<Action>)
    requires Inv(s) && At(s, c).Asleep? && s.lock == Some(ByCaller(d)) && (At(s, d).Settling? || At(s, d).Leaving?)
    requires t in s.tasks && s.tasks[t].Pending()
    ensures Wakes(s, c, run) && |run| <= 4
  {
    var a := if At(s, d).Settling? then Sleep(d) else Unlock(d);
    run := TaskWakes(Do(s, a).value, c, t);
    WakesAfter(s, a, c, run);
    run := [a] + run;
  }

  /** When Wait returns, no task is between its compare-and-swap and its decrement. */
  lemma WaitReturnsAfterWork(s: State, c: nat)
    requires Inv(s) && At(s, c).Confirming?
    ensures var s' := Do(s, Confirm(c)).value; At(s', c).Idle? <==> Workers(s) == {}
  {
    assert |Workers(s)| == 0 <==> Workers(s) == {};
  }

  // ----- what the calls come to

  /**
   A swap starts its task, one and no other, and ends the call of Run if and only if the count it
   loaded is below the limit and still the count; else the call goes on to wait for room.
   */
  lemma SwapStartsIff(s: State, c: nat, t: nat)
    requires At(s, c).Swapping? && t !in s.tasks
    ensures Do(s, Swap(c, t)).Some?
    ensures var s' := Do(s, Swap(c, t)).value; var n := At(s, c).count;
      if n < s.limit && s.counter == n
      then s'.tasks == s.tasks[t := Working] && s'.counter == n + 1 && At(s', c) == Idle
      else s'.tasks == s.tasks && s'.counter == s.counter && At(s', c) == Blocking(ForRoom)
  {
  }

  /** From every reachable state: a call of Run that is about to load a count below the limit can start its task next,
      under any number that is new. */
  lemma RunCanStart(limit: int, run: seq<Action>, c: nat, t: nat)
    requires limit >= 1 && Exec(Init(limit), run).Some?
    requires var s := Exec(Init(limit), run).value; At(s, c).Loading? && t !in s.tasks
    ensures var s := Exec(Init(limit), run).value;
      && Do(s, Load(c)).Some? && Do(Do(s, Load(c)).value, Swap(c, t)).Some?
      && var s' := Do(Do(s, Load(c)).value, Swap(c, t)).value;
         |Workers(s)| < limit ==>
           && At(s', c) == Idle && Workers(s') == Workers(s) + {t}
           && s'.counter == s.counter + 1 == |Workers(s')| <= limit
  {
    var s := Exec(Init(limit), run).value;
    EveryReachableState(limit, run);
    LimitStays(Init(limit), run);
    var s1 := Do(s, Load(c)).value;
    WorkersUnchanged(s, s1);
    SwapStartsIff(s1, c, t);
    if |Workers(s)| < limit {
      assert Workers(Do(s1, Swap(c, t)).value) == Workers(s) + {t};
    }
  }

  lemma {:induction false} LimitStays(s: State, run: seq<Action>)
    requires Exec(s, run).Some?
    ensures Exec(s, run).value.limit == s.limit
    decreases |run|
  {
    if run != [] {
      LimitStays(Do(s, run[0]).value, run[1..]);
    }
  }

  /** A call sleeps if and only if what it waits for is not there: Run at a full counter, Wait at one above zero. */
  lemma SleepsIff(s: State, c: nat)
    requires At(s, c).Checking?
    ensures Do(s, Check(c)).Some?
    ensures var why := At(s, c).why; var s' := Do(s, Check(c)).value;
      && s' == s.(callers := s'.callers)
      && At(s', c) == if (why == ForRoom && s.counter == s.limit) || (why == ForEnd && s.counter != 0)
                      then Settling(why) else Leaving(why)
  {
  }

  /** What caller `c` can do next. */
  ghost predicate CallerCanGoOn(s: State, c: nat) {
    match At(s, c)
    case Idle => Do(s, CallRun(c)).Some? && Do(s, CallWait(c)).Some?
    case Loading => Do(s, Load(c)).Some?
    case Swapping(_) => forall t :: t !in s.tasks ==> Do(s, Swap(c, t)).Some?
    case Blocking(_) => Do(s, Lock(c)).Some? <==> s.lock.None?
    case Woken(_) => Do(s, Lock(c)).Some? <==> s.lock.None?
    case Checking(_) => Do(s, Check(c)).Some?
    case Settling(_) => Do(s, Sleep(c)).Some? && Do(s, Sleep(c)).value.lock.None?
    case Leaving(_) => Do(s, Unlock(c)).Some? && Do(s, Unlock(c)).value.lock.None?
    case Confirming => Do(s, Confirm(c)).Some?
    case Asleep(_) => SomePending(s)
  }

  /** A thread inside a call can always go on, unless it sleeps or needs the lock that another holds. */
  lemma CallersGoOn(s: State, c: nat)
    requires Inv(s)
    ensures CallerCanGoOn(s, c)
  {
  }

  /** What task `t` can do next. */
  ghost predicate TaskCanGoOn(s: State, t: nat)
    requires t in s.tasks
  {
    match s.tasks[t]
    case Working => Do(s, Finish(t)).Some? && Do(s, Finish(t)).value.counter == s.counter - 1
    case Counted => Do(s, TaskLock(t)).Some? <==> s.lock.None?
    case Broadcasting =>
      Do(s, Broadcast(t)).Some? && forall c :: At(s, c).Asleep? ==> At(Do(s, Broadcast(t)).value, c).Woken?
    case Releasing => Do(s, TaskUnlock(t)).Some? && Do(s, TaskUnlock(t)).value.lock.None?
    case Done => true
  }

  /** A task finishes, releases everyone and is gone in four steps, held up only by the lock. */
  lemma TasksGoOn(s: State, t: nat)
    requires t in s.tasks
    ensures TaskCanGoOn(s, t)
  {
  }

  // ----- every call of Run starts one task

  predicate InRun(pc: Caller) {
    match pc
    case Idle => false
    case Loading => true
    case Swapping(_) => true
    case Confirming => false
    case _ => pc.why.ForRoom?
  }

  predicate InWait(pc: Caller) {
    !pc.Idle? && !InRun(pc)
  }

  /** A call of Run goes on until its swap has started a task; a call of Wait until it has loaded a zero. */
  lemma CallsEndOnlySo(s: State, a: Action, c: nat)
    requires Do(s, a).Some?
    ensures var pc, pc' := At(s, c), At(Do(s, a).value, c);
      && (InRun(pc) ==> InRun(pc') || (pc'.Idle? && a.Swap? && a.c == c && a.t !in s.tasks))
      && (InRun(pc) && pc'.Idle? ==> Do(s, a).value.tasks == s.tasks[a.t := Working])
      && (InWait(pc) ==> InWait(pc') || (pc'.Idle? && a == Confirm(c) && s.counter == 0))
      && (pc.Idle? ==> if a == CallRun(c) then InRun(pc') else if a == CallWait(c) then InWait(pc') else pc'.Idle?)
      && (a.Swap? && a.c == c ==> InRun(pc))
  {
  }

  /** The threads inside a call of Run. */
  ghost function Runners(s: State): set<nat> {
    set c | c in s.callers && InRun(s.callers[c])
  }

  function RunCalls(run: seq<Action>): nat {
    if run == [] then 0 else (if run[0].CallRun? then 1 else 0) + RunCalls(run[1..])
  }

  /** The step ends a call of Run and starts its task. */
  predicate Starts(s: State, a: Action) {
    Do(s, a).Some? && a.Swap? && At(Do(s, a).value, a.c).Idle?
  }

  lemma RunnersAfter(s: State, a: Action)
    requires Do(s, a).Some?
    ensures var s' := Do(s, a).value;
      && (a.CallRun? ==> Runners(s') == Runners(s) + {a.c} && a.c !in Runners(s))
      && (Starts(s, a) ==> Runners(s') == Runners(s) - {a.c} && a.c in Runners(s))
      && (!a.CallRun? && !Starts(s, a) ==> Runners(s') == Runners(s))
  {
    var s' := Do(s, a).value;
    forall c: nat ensures c in Runners(s') <==> (c in Runners(s) && !(Starts(s, a) && a.c == c)) || a == CallRun(c) {
      CallsEndOnlySo(s, a, c);
      assert c in Runners(s) <==> InRun(At(s, c));
      assert c in Runners(s') <==> InRun(At(s', c));
    }
    if a.CallRun? || a.Swap? {
      CallsEndOnlySo(s, a, a.c);
    }
  }

  lemma SizeOfUpdate<T>(m: map<nat, T>, t: nat, x: T)
    ensures |m[t := x]| == |m| + if t in m then 0 else 1
  {
    assert m[t := x].Keys == m.Keys + {t};
    assert |m[t := x]| == |m[t := x].Keys| && |m| == |m.Keys|;
  }

  lemma TasksChange(s: State, a: Action)
    requires Do(s, a).Some?
    ensures var s' := Do(s, a).value;
      if Starts(s, a) then a.t !in s.tasks && s'.tasks == s.tasks[a.t := Working]
      else if a.Finish? || a.TaskLock? || a.Broadcast? || a.TaskUnlock?
      then a.t in s.tasks && a.t in s'.tasks && s'.tasks == s.tasks[a.t := s'.tasks[a.t]]
      else s'.tasks == s.tasks
  {
  }

  lemma TasksAfter(s: State, a: Action)
    requires Do(s, a).Some?
    ensures |Do(s, a).value.tasks| == |s.tasks| + if Starts(s, a) then 1 else 0
  {
    TasksChange(s, a);
    if Starts(s, a) {
      SizeOfUpdate(s.tasks, a.t, Working);
    } else if a.Finish? || a.TaskLock? || a.Broadcast? || a.TaskUnlock? {
      SizeOfUpdate(s.tasks, a.t, Do(s, a).value.tasks[a.t]);
    }
  }

  lemma StepCountsRuns(s: State, a: Action)
    requires Do(s, a).Some?
    ensures var s' := Do(s, a).value;
      |s'.tasks| + |Runners(s')| == |s.tasks| + |Runners(s)| + if a.CallRun? then 1 else 0
  {
    RunnersAfter(s, a);
    TasksAfter(s, a);
  }

  lemma {:induction false} RunsAreCounted(s: State, run: seq<Action>)
    requires Exec(s, run).Some?
    ensures var s' := Exec(s, run).value; |s'.tasks| + |Runners(s')| == |s.tasks| + |Runners(s)| + RunCalls(run)
    decreases |run|
  {
    if run != [] {
      StepCountsRuns(s, run[0]);
      RunsAreCounted(Do(s, run[0]).value, run[1..]);
    }
  }

  /** In every run: there are as many tasks, begun or done, as calls of Run that have returned. */
  lemma OneTaskPerRun(limit: int, run: seq<Action>)
    requires Exec(Init(limit), run).Some?
    ensures var s := Exec(Init(limit), run).value; |s.tasks| == RunCalls(run) - |Runners(s)|
  {
    assert Runners(Init(limit)) == {};
    RunsAreCounted(Init(limit), run);
  }
}
