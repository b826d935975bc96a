/** Why the walk over the map of utils/Map/concurrentMap/map.go comes to an end. */
module SnapshotProgress {
  import opened MapSnapshot
  import opened Sums

  /** How many steps the two threads of a lane have taken. */
  function LaneSteps<K, V>(x: Lane<K, V>): int {
    (match x.filler case Starting => 0 case Filling => 1 case Filled => 2)
    + |x.sent| + |Hand(x.forwarder)| + 2 * |x.passed| + if x.forwarder.Finished? then 1 else 0
  }

  function AllSteps<K, V>(lanes: seq<Lane<K, V>>): seq<int> {
    seq(|lanes|, i requires 0 <= i < |lanes| => LaneSteps(lanes[i]))
  }

  /** How many steps the walk has taken. */
  function Steps<K, V>(s: State<K, V>): int {
    Sum(AllSteps(s.lanes)) + (if s.total.Some? then 1 else 0) + if s.closed then 1 else 0
  }

  function OwnSteps<K, V>(run: seq<Action<K, V>>): nat {
    if run == [] then 0 else OwnSteps(run[1..]) + if OwnStep(run[0]) then 1 else 0
  }

  lemma StepsOfUpdate<K, V>(lanes: seq<Lane<K, V>>, i: nat, y: Lane<K, V>)
    requires i < |lanes|
    ensures Sum(AllSteps(lanes[i := y])) == Sum(AllSteps(lanes)) - LaneSteps(lanes[i]) + LaneSteps(y)
  {
    assert AllSteps(lanes[i := y]) == AllSteps(lanes)[i := LaneSteps(y)];
    SumOfUpdate(AllSteps(lanes), i, LaneSteps(y));
  }

  lemma LaneStepCounts<K(!new), V>(x: Lane<K, V>, a: Action<K, V>)
    requires a.Write? || a.Lock? || a.Fill? || a.Unlock? || a.Receive? || a.Finish?
    requires DoLane(x, a).Some?
    ensures LaneSteps(DoLane(x, a).value) == LaneSteps(x) + if a.Write? then 0 else 1
  {
  }

  lemma BeginCounts<K(!new), V>(s: State<K, V>)
    requires Inv(s) && Do(s, Begin).Some?
    ensures Steps(Do(s, Begin).value) == Steps(s) + 1
  {
    assert AllSteps(Forward(s.lanes)) == AllSteps(s.lanes);
  }

  lemma StepCounts<K(!new), V>(s: State<K, V>, a: Action<K, V>)
    requires Inv(s) && Do(s, a).Some?
    ensures Steps(Do(s, a).value) == Steps(s) + if OwnStep(a) then 1 else 0
  {
    if a.Begin? {
      BeginCounts(s);
    } else if a.Pass? {
      var x := s.lanes[a.i];
      StepsOfUpdate(s.lanes, a.i, AfterPass(x));
    } else if !a.Close? && !a.Consume? {
      LaneStepCounts(s.lanes[a.i], a);
      StepsOfUpdate(s.lanes, a.i, DoLane(s.lanes[a.i], a).value);
    }
  }

  lemma {:induction false} RunsCount<K(!new), V>(s: State<K, V>, run: seq<Action<K, V>>)
    requires Inv(s) && Exec(s, run).Some?
    ensures Steps(Exec(s, run).value) == Steps(s) + OwnSteps(run)
    decreases |run|
  {
    if run != [] {
      StepKeepsInv(s, run[0]);
      StepCounts(s, run[0]);
      RunsCount(Do(s, run[0]).value, run[1..]);
    }
  }

  /** A lane is done after three steps per pair of its snapshot and three more. */
  lemma LaneStepsBounded<K(!new), V>(x: Lane<K, V>)
    requires LaneInv(x)
    ensures LaneSteps(x) <= 3 * |x.snap| + 3
  {
    PairsFit(x.sent, x.snap);
  }

  lemma {:induction false} StepsBounded<K(!new), V>(lanes: seq<Lane<K, V>>)
    requires forall i :: 0 <= i < |lanes| ==> LaneInv(lanes[i])
    ensures Sum(AllSteps(lanes)) <= 3 * Sum(Caps(lanes)) + 3 * |lanes|
  {
    if lanes != [] {
      LaneStepsBounded(lanes[0]);
      StepsBounded(lanes[1..]);
      assert AllSteps(lanes)[1..] == AllSteps(lanes[1..]);
      assert Caps(lanes)[1..] == Caps(lanes[1..]);
    }
  }

  /**
   In every run, whatever the writers do: the walk takes at most three steps per pair of its
   snapshots, three per shard and two more. With `WalkNeverStuck`, it ends.
   */
  lemma WalkIsBounded<K(!new), V>(ms: seq<map<K, V>>, run: seq<Action<K, V>>)
    requires Exec(Init(ms), run).Some?
    ensures var s := Exec(Init(ms), run).value; OwnSteps(run) <= 3 * Sum(Caps(s.lanes)) + 3 * |s.lanes| + 2
  {
    StartKeepsInv(ms);
    RunsKeepInv(Init(ms), run);
    RunsCount(Init(ms), run);
    SumIsNatural(AllSteps(Init(ms).lanes));
    StepsBounded(Exec(Init(ms), run).value.lanes);
  }
}
