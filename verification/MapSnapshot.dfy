/**
 How utils/Map/concurrentMap/map.go walks over the map while others use it: one thread per shard
 takes the shard's read lock, makes a channel as large as the shard and fills it; one thread per
 channel forwards into a common channel, which is closed at the end.

 A shard with its two threads is a lane. Writers may change a shard between any two steps, but
 not while the thread that fills its channel holds the lock.
 */
module MapSnapshot {
  import opened Prelude
  import opened ShardedValue
  import opened Sums

  datatype Pair<K, V> = Pair(key: K, val: V)

  datatype Filler = Starting | Filling | Filled

  datatype Forwarder<K, V> = Unstarted | Receiving | Holding(p: Pair<K, V>) | Finished

  datatype Lane<K(==), V> = Lane(
    items: map<K, V>,            // the shard
    filler: Filler,
    snap: map<K, V>,             // the shard as the filler locked it
    sent: seq<Pair<K, V>>,       // what the filler has put into its channel
    chan: seq<Pair<K, V>>,       // what the channel holds
    forwarder: Forwarder<K, V>,
    passed: seq<Pair<K, V>>)     // what the forwarder has put into the common channel

  /** An element of the common channel with the lane that it came through. */
  datatype Tagged<K, V> = Tagged(lane: nat, p: Pair<K, V>)

  datatype State<K(==), V> = State(
    lanes: seq<Lane<K, V>>,
    total: Option<int>,          // size of the common channel, once all channels are made
    out: seq<Tagged<K, V>>,      // everything put into the common channel
    taken: nat,                  // how much of that has been received
    closed: bool)

  datatype Action<K(==), V> =
    | Write(i: nat, items: map<K, V>)
    | Lock(i: nat)
    | Fill(i: nat, k: K)
    | Unlock(i: nat)
    | Begin
    | Receive(i: nat)
    | Pass(i: nat)
    | Finish(i: nat)
    | Close
    | Consume

  function Init<K(==), V>(ms: seq<map<K, V>>): State<K, V> {
    var lanes := seq(|ms|, i requires 0 <= i < |ms| => Lane(ms[i], Starting, map[], [], [], Unstarted, []));
    State(lanes, None, [], 0, false)
  }

  predicate HasKey<K(==), V>(ps: seq<Pair<K, V>>, k: K) {
    exists j :: 0 <= j < |ps| && ps[j].key == k
  }

  /** What a step of one lane does to that lane. Sending needs room in the channel. */
  function DoLane<K(==), V>(x: Lane<K, V>, a: Action<K, V>): Option<Lane<K, V>>
    requires a.Write? || a.Lock? || a.Fill? || a.Unlock? || a.Receive? || a.Finish?
  {
    match a
    case Write(_, items) => if x.filler.Filling? then None else Some(x.(items := items))
    case Lock(_) => if x.filler.Starting? then Some(x.(filler := Filling, snap := x.items)) else None
    case Fill(_, k) =>
      if x.filler.Filling? && k in x.items && !HasKey(x.sent, k) && |x.chan| < |x.snap|
      then var p := Pair(k, x.items[k]); Some(x.(sent := x.sent + [p], chan := x.chan + [p]))
      else None
    case Unlock(_) =>
      if x.filler.Filling? && (forall k <- x.items :: HasKey(x.sent, k)) then Some(x.(filler := Filled)) else None
    case Receive(_) =>
      if x.forwarder.Receiving? && x.chan != []
      then Some(x.(forwarder := Holding(x.chan[0]), chan := x.chan[1..]))
      else None
    case Finish(_) =>
      if x.forwarder.Receiving? && x.chan == [] && x.filler.Filled? then Some(x.(forwarder := Finished)) else None
  }

  function Caps<K, V>(lanes: seq<Lane<K, V>>): seq<int> {
    seq(|lanes|, i requires 0 <= i < |lanes| => |lanes[i].snap|)
  }

  function Forward<K, V>(lanes: seq<Lane<K, V>>): seq<Lane<K, V>> {
    seq(|lanes|, i requires 0 <= i < |lanes| => lanes[i].(forwarder := Receiving))
  }

  function Do<K(==), V>(s: State<K, V>, a: Action<K, V>): Option<State<K, V>> {
    match a
    case Begin =>
      if s.total.Some? || (exists i :: 0 <= i < |s.lanes| && s.lanes[i].filler.Starting?) then None
      else Some(s.(total := Some(Sum(Caps(s.lanes))), lanes := Forward(s.lanes)))
    case Pass(i) =>
      if i >= |s.lanes| || !s.lanes[i].forwarder.Holding? || s.total.None? || s.closed then None
      else if |s.out| - s.taken >= s.total.value then None
      else
        var x := s.lanes[i];
        var p := x.forwarder.p;
        var y := x.(forwarder := Receiving, passed := x.passed + [p]);
        Some(s.(lanes := s.lanes[i := y], out := s.out + [Tagged(i, p)]))
    case Close =>
      if s.closed || s.total.None? || (exists i :: 0 <= i < |s.lanes| && !s.lanes[i].forwarder.Finished?) then None
      else Some(s.(closed := true))
    case Consume => if s.taken < |s.out| then Some(s.(taken := s.taken + 1)) else None
    case _ =>
      if a.i >= |s.lanes| then None
      else match DoLane(s.lanes[a.i], a) case None => None case Some(x) => Some(s.(lanes := s.lanes[a.i := x]))
  }

  function Exec<K(==), V>(s: State<K, V>, run: seq<Action<K, V>>): Option<State<K, V>>
    decreases |run|
  {
    if run == [] then Some(s)
    else match Do(s, run[0]) case None => None case Some(s') => Exec(s', run[1..])
  }

  // ----- what every lane keeps

  function Hand<K, V>(f: Forwarder<K, V>): seq<Pair<K, V>> {
    if f.Holding? then [f.p] else []
  }

  ghost predicate DistinctKeys<K, V>(ps: seq<Pair<K, V>>) {
    forall i, j :: 0 <= i < j < |ps| ==> ps[i].key != ps[j].key
  }

  /** Pairs of `m`, no key twice. */
  ghost predicate PairsOf<K(!new), V>(ps: seq<Pair<K, V>>, m: map<K, V>) {
    DistinctKeys(ps) && forall j :: 0 <= j < |ps| ==> ps[j].key in m && m[ps[j].key] == ps[j].val
  }

  ghost predicate AllPairsOf<K(!new), V>(ps: seq<Pair<K, V>>, m: map<K, V>) {
    PairsOf(ps, m) && forall k <- m :: HasKey(ps, k)
  }

  ghost predicate LaneInv<K(!new), V>(x: Lane<K, V>) {
    && x.sent == x.passed + Hand(x.forwarder) + x.chan
    && PairsOf(x.sent, x.snap)
    && (x.filler.Starting? ==> x.sent == [] && x.forwarder.Unstarted?)
    && (x.filler.Filling? ==> x.items == x.snap)
    && (x.filler.Filled? ==> AllPairsOf(x.sent, x.snap))
    && (x.forwarder.Unstarted? ==> x.passed == [])
    && (x.forwarder.Finished? ==> x.filler.Filled? && x.chan == [])
  }

  function KeySet<K, V>(ps: seq<Pair<K, V>>): set<K> {
    set j | 0 <= j < |ps| :: ps[j].key
  }

  lemma {:induction false} DistinctCount<K, V>(ps: seq<Pair<K, V>>)
    requires DistinctKeys(ps)
    ensures |KeySet(ps)| == |ps|
  {
    if ps != [] {
      var q := ps[..|ps| - 1];
      DistinctCount(q);
      var last := ps[|ps| - 1];
      assert KeySet(ps) == KeySet(q) + {last.key};
      assert last.key !in KeySet(q);
    }
  }

  lemma SubsetCount<K>(a: set<K>, b: set<K>)
    requires a <= b
    ensures |a| <= |b|
  {
    assert b == a + (b - a);
  }

  lemma PairsFit<K(!new), V>(ps: seq<Pair<K, V>>, m: map<K, V>)
    requires PairsOf(ps, m)
    ensures |ps| <= |m|
  {
    DistinctCount(ps);
    SubsetCount(KeySet(ps), m.Keys);
  }

  /** While a pair is still to be sent there is room for it: a filler never blocks on its channel. */
  lemma FillerNeverBlocks<K(!new), V>(x: Lane<K, V>, k: K)
    requires LaneInv(x) && x.filler.Filling? && k in x.items && !HasKey(x.sent, k)
    ensures |x.chan| < |x.snap|
  {
    PairsFit(x.sent + [Pair(k, x.items[k])], x.snap);
  }

  lemma FillKeepsLaneInv<K(!new), V>(x: Lane<K, V>, i: nat, k: K)
    requires LaneInv(x) && DoLane(x, Fill(i, k)).Some?
    ensures LaneInv(DoLane(x, Fill(i, k)).value)
  {
    var y := DoLane(x, Fill(i, k)).value;
    assert y.sent == y.passed + Hand(y.forwarder) + y.chan;
  }

  lemma LaneStepKeepsInv<K(!new), V>(x: Lane<K, V>, a: Action<K, V>)
    requires a.Write? || a.Lock? || a.Fill? || a.Unlock? || a.Receive? || a.Finish?
    requires LaneInv(x) && DoLane(x, a).Some?
    ensures LaneInv(DoLane(x, a).value) && Follows(x, DoLane(x, a).value)
  {
    match a
    case Fill(i, k) => FillKeepsLaneInv(x, i, k);
    case Receive(_) => assert x.chan == [x.chan[0]] + x.chan[1..];
    case _ =>
  }

  // ----- what the whole walk keeps

  /** What came out through lane `i`. */
  function Through<K, V>(out: seq<Tagged<K, V>>, i: nat): seq<Pair<K, V>> {
    if out == [] then []
    else
      var last := out[|out| - 1];
      Through(out[..|out| - 1], i) + if last.lane == i then [last.p] else []
  }

  function PassedCounts<K, V>(lanes: seq<Lane<K, V>>): seq<int> {
    seq(|lanes|, i requires 0 <= i < |lanes| => |lanes[i].passed|)
  }

  ghost predicate OutInv<K, V>(s: State<K, V>) {
    && (forall i: nat :: i < |s.lanes| ==> Through(s.out, i) == s.lanes[i].passed)
    && (forall j :: 0 <= j < |s.out| ==> s.out[j].lane < |s.lanes|)
    && |s.out| == Sum(PassedCounts(s.lanes))
    && s.taken <= |s.out|
  }

  ghost predicate PhaseInv<K, V>(s: State<K, V>) {
    && (s.total.None? ==> forall i :: 0 <= i < |s.lanes| ==> s.lanes[i].forwarder.Unstarted?)
    && (s.total.Some? ==>
          && s.total.value == Sum(Caps(s.lanes))
          && forall i :: 0 <= i < |s.lanes| ==> !s.lanes[i].filler.Starting? && !s.lanes[i].forwarder.Unstarted?)
    && (s.closed ==> s.total.Some? && forall i :: 0 <= i < |s.lanes| ==> s.lanes[i].forwarder.Finished?)
  }

  ghost predicate LanesInv<K(!new), V>(s: State<K, V>) {
    forall i :: 0 <= i < |s.lanes| ==> LaneInv(s.lanes[i])
  }

  ghost predicate Inv<K(!new), V>(s: State<K, V>) {
    LanesInv(s) && OutInv(s) && PhaseInv(s)
  }

  /** `y` is a later state of lane `x` that has passed nothing more. */
  ghost predicate Follows<K, V>(x: Lane<K, V>, y: Lane<K, V>) {
    && y.passed == x.passed
    && (!x.filler.Starting? ==> y.snap == x.snap && !y.filler.Starting?)
    && (x.forwarder.Unstarted? <==> y.forwarder.Unstarted?)
    && (x.forwarder.Finished? ==> y.forwarder.Finished?)
  }

  lemma ReplaceKeepsInv<K(!new), V>(s: State<K, V>, i: nat, y: Lane<K, V>)
    requires Inv(s) && i < |s.lanes| && LaneInv(y) && Follows(s.lanes[i], y)
    ensures Inv(s.(lanes := s.lanes[i := y]))
  {
    var lanes := s.lanes[i := y];
    assert PassedCounts(lanes) == PassedCounts(s.lanes);
    if s.total.Some? {
      assert Caps(lanes) == Caps(s.lanes);
    }
  }

  lemma LaneActionKeepsInv<K(!new), V>(s: State<K, V>, a: Action<K, V>)
    requires a.Write? || a.Lock? || a.Fill? || a.Unlock? || a.Receive? || a.Finish?
    requires Inv(s) && Do(s, a).Some?
    ensures Inv(Do(s, a).value)
  {
    var i := a.i;
    LaneStepKeepsInv(s.lanes[i], a);
    ReplaceKeepsInv(s, i, DoLane(s.lanes[i], a).value);
  }

  lemma BeginKeepsInv<K(!new), V>(s: State<K, V>)
    requires Inv(s) && Do(s, Begin).Some?
    ensures Inv(Do(s, Begin).value)
  {
    var s' := Do(s, Begin).value;
    assert PassedCounts(s'.lanes) == PassedCounts(s.lanes);
    assert Caps(s'.lanes) == Caps(s.lanes);
  }

  /** A lane after its forwarder has passed on what it held. */
  function AfterPass<K, V>(x: Lane<K, V>): Lane<K, V>
    requires x.forwarder.Holding?
  {
    x.(forwarder := Receiving, passed := x.passed + [x.forwarder.p])
  }

  lemma AfterPassKeepsLaneInv<K(!new), V>(x: Lane<K, V>)
    requires LaneInv(x) && x.forwarder.Holding?
    ensures LaneInv(AfterPass(x))
  {
    assert x.sent == AfterPass(x).passed + [] + x.chan;
  }

  lemma PassKeepsOut<K(!new), V>(s: State<K, V>, i: nat)
    requires Inv(s) && Do(s, Pass(i)).Some?
    ensures OutInv(Do(s, Pass(i)).value)
  {
    var s' := Do(s, Pass(i)).value;
    assert s'.out[..|s'.out| - 1] == s.out;
    assert PassedCounts(s'.lanes) == PassedCounts(s.lanes)[i := |s.lanes[i].passed| + 1];
    SumOfUpdate(PassedCounts(s.lanes), i, |s.lanes[i].passed| + 1);
  }

  lemma PassKeepsInv<K(!new), V>(s: State<K, V>, i: nat)
    requires Inv(s) && Do(s, Pass(i)).Some?
    ensures Inv(Do(s, Pass(i)).value)
  {
    var s' := Do(s, Pass(i)).value;
    PassKeepsOut(s, i);
    AfterPassKeepsLaneInv(s.lanes[i]);
    assert s'.lanes == s.lanes[i := AfterPass(s.lanes[i])];
    assert Caps(s'.lanes) == Caps(s.lanes);
  }

  lemma StepKeepsInv<K(!new), V>(s: State<K, V>, a: Action<K, V>)
    requires Inv(s) && Do(s, a).Some?
    ensures Inv(Do(s, a).value)
  {
    match a
    case Begin => BeginKeepsInv(s);
    case Pass(i) => PassKeepsInv(s, i);
    case Close =>
    case Consume =>
    case _ => LaneActionKeepsInv(s, a);
  }

  /** A forwarder with an element in hand finds room in the common channel, however slow the consumer is. */
  lemma ForwarderNeverBlocks<K(!new), V>(s: State<K, V>, i: nat)
    requires Inv(s) && i < |s.lanes| && s.lanes[i].forwarder.Holding?
    ensures Do(s, Pass(i)).Some?
  {
    var counts := PassedCounts(s.lanes)[i := |s.lanes[i].passed| + 1];
    forall j | 0 <= j < |counts| ensures counts[j] <= Caps(s.lanes)[j] {
      assert LaneInv(s.lanes[j]);
      PairsFit(s.lanes[j].sent, s.lanes[j].snap);
    }
    SumOfSmaller(counts, Caps(s.lanes));
    SumOfUpdate(PassedCounts(s.lanes), i, |s.lanes[i].passed| + 1);
  }

  /** A step that needs neither a writer nor the consumer. */
  predicate OwnStep<K, V>(a: Action<K, V>) {
    !a.Write? && !a.Consume?
  }

  lemma FillerCanStep<K(!new), V>(s: State<K, V>, i: nat)
    requires Inv(s) && i < |s.lanes| && !s.lanes[i].filler.Filled?
    ensures exists a: Action<K, V> :: OwnStep(a) && Do(s, a).Some?
  {
    var x := s.lanes[i];
    if x.filler.Starting? {
      assert Do(s, Lock(i)).Some?;
    } else if k :| k in x.items && !HasKey(x.sent, k) {
      FillerNeverBlocks(x, k);
      assert Do(s, Fill(i, k)).Some?;
    } else {
      assert Do(s, Unlock(i)).Some?;
    }
  }

  lemma ForwarderCanStep<K(!new), V>(s: State<K, V>, i: nat)
    requires Inv(s) && s.total.Some? && i < |s.lanes|
    requires s.lanes[i].filler.Filled? && !s.lanes[i].forwarder.Finished? && !s.lanes[i].forwarder.Unstarted?
    ensures exists a: Action<K, V> :: OwnStep(a) && Do(s, a).Some?
  {
    var x := s.lanes[i];
    if x.forwarder.Holding? {
      ForwarderNeverBlocks(s, i);
    } else if x.chan != [] {
      assert Do(s, Receive(i)).Some?;
    } else {
      assert Do(s, Finish(i)).Some?;
    }
  }

  lemma StartKeepsInv<K(!new), V>(ms: seq<map<K, V>>)
    ensures Inv(Init(ms))
  {
    var s := Init(ms);
    SumAtMost(PassedCounts(s.lanes), 0);
    SumIsNatural(PassedCounts(s.lanes));
  }

  lemma {:induction false} RunsKeepInv<K(!new), V>(s: State<K, V>, run: seq<Action<K, V>>)
    requires Inv(s) && Exec(s, run).Some?
    ensures Inv(Exec(s, run).value)
    decreases |run|
  {
    if run != [] {
      StepKeepsInv(s, run[0]);
      RunsKeepInv(Do(s, run[0]).value, run[1..]);
    }
  }

  /** Until the common channel is closed some thread of the walk can go on, even if nobody receives. */
  lemma WalkNeverStuck<K(!new), V>(s: State<K, V>)
    requires Inv(s) && !s.closed
    ensures exists a: Action<K, V> :: OwnStep(a) && Do(s, a).Some?
  {
    if i: nat :| i < |s.lanes| && !s.lanes[i].filler.Filled? {
      FillerCanStep(s, i);
    } else if s.total.None? {
      assert Do(s, Begin).Some?;
    } else if i: nat :| i < |s.lanes| && !s.lanes[i].forwarder.Finished? {
      ForwarderCanStep(s, i);
    } else {
      assert Do(s, Close).Some?;
    }
  }

  /** When the common channel is closed, each lane has delivered every pair of its snapshot exactly once. */
  lemma DeliversEachPairOnce<K(!new), V>(ms: seq<map<K, V>>, run: seq<Action<K, V>>, i: nat)
    requires Exec(Init(ms), run).Some?
    ensures var s := Exec(Init(ms), run).value;
      s.closed && i < |s.lanes| ==> AllPairsOf(Through(s.out, i), s.lanes[i].snap)
  {
    StartKeepsInv(ms);
    RunsKeepInv(Init(ms), run);
    var s := Exec(Init(ms), run).value;
    if s.closed && i < |s.lanes| {
      assert LaneInv(s.lanes[i]);
      assert s.lanes[i].sent == s.lanes[i].passed;
    }
  }

  // ----- the map that Items collects

  /** The map that a receiver of the common channel builds. */
  function Collect<K, V>(out: seq<Tagged<K, V>>): map<K, V> {
    if out == [] then map[]
    else
      var last := out[|out| - 1];
      Collect(out[..|out| - 1])[last.p.key := last.p.val]
  }

  /** If what comes out agrees with a map, so does what is collected, and it has the same keys. */
  lemma {:induction false} CollectAgrees<K(!new), V>(out: seq<Tagged<K, V>>, m: map<K, V>)
    requires forall j :: 0 <= j < |out| ==> out[j].p.key in m && m[out[j].p.key] == out[j].p.val
    ensures forall k <- Collect(out) :: k in m && Collect(out)[k] == m[k]
    ensures forall j :: 0 <= j < |out| ==> out[j].p.key in Collect(out)
  {
    if out != [] {
      CollectAgrees(out[..|out| - 1], m);
    }
  }

  lemma {:induction false} ThroughHas<K(!new), V>(out: seq<Tagged<K, V>>, j: nat)
    requires j < |out|
    ensures out[j].p in Through(out, out[j].lane)
  {
    if j < |out| - 1 {
      ThroughHas(out[..|out| - 1], j);
    }
  }

  lemma {:induction false} ThroughOnly<K(!new), V>(out: seq<Tagged<K, V>>, i: nat, k: nat)
    requires k < |Through(out, i)|
    ensures exists j :: 0 <= j < |out| && out[j].lane == i && out[j].p == Through(out, i)[k]
  {
    var rest := out[..|out| - 1];
    if k < |Through(rest, i)| {
      ThroughOnly(rest, i, k);
      var j :| 0 <= j < |rest| && rest[j].lane == i && rest[j].p == Through(rest, i)[k];
      assert out[j] == rest[j];
    }
  }

  function Snaps<K, V>(s: State<K, V>): seq<map<K, V>> {
    seq(|s.lanes|, i requires 0 <= i < |s.lanes| => s.lanes[i].snap)
  }

  lemma OutAgrees<K(!new), V>(s: State<K, V>, j: nat)
    requires Inv(s) && Apart(Snaps(s)) && j < |s.out|
    ensures var p := s.out[j].p; p.key in Union(Snaps(s)) && Union(Snaps(s))[p.key] == p.val
  {
    var i := s.out[j].lane;
    ThroughHas(s.out, j);
    assert LaneInv(s.lanes[i]);
    var c :| 0 <= c < |s.lanes[i].passed| && s.lanes[i].passed[c] == s.out[j].p;
    assert s.lanes[i].sent[c] == s.out[j].p;
    UnionHas(Snaps(s), i, s.out[j].p.key);
  }

  /** When the walk is closed, every key of a snapshot has come out. */
  lemma OutHas<K(!new), V>(s: State<K, V>, i: nat, k: K)
    requires Inv(s) && s.closed && i < |s.lanes| && k in s.lanes[i].snap
    ensures exists j :: 0 <= j < |s.out| && s.out[j].p.key == k
  {
    var x := s.lanes[i];
    assert LaneInv(x) && HasKey(x.sent, k);
    var c :| 0 <= c < |x.sent| && x.sent[c].key == k;
    ThroughOnly(s.out, i, c);
  }

  lemma KeyComesOut<K(!new), V>(s: State<K, V>, k: K)
    requires Inv(s) && s.closed && k in Union(Snaps(s))
    ensures exists j :: 0 <= j < |s.out| && s.out[j].p.key == k
  {
    UnionHasOnly(Snaps(s), k);
    var i: nat :| i < |Snaps(s)| && k in Snaps(s)[i];
    OutHas(s, i, k);
  }

  /** What is collected from a closed walk is the union of the snapshots of the shards. */
  lemma CollectsTheSnapshots<K(!new), V>(s: State<K, V>)
    requires Inv(s) && s.closed && Apart(Snaps(s))
    ensures Collect(s.out) == Union(Snaps(s))
  {
    var m := Union(Snaps(s));
    forall j: nat | j < |s.out| ensures s.out[j].p.key in m && m[s.out[j].p.key] == s.out[j].p.val {
      OutAgrees(s, j);
    }
    CollectAgrees(s.out, m);
    forall k <- m ensures k in Collect(s.out) {
      KeyComesOut(s, k);
    }
  }

  /** A writer stores keys only in their home shard. */
  ghost predicate AtHome<K(!new), V>(h: K -> nat, n: nat, a: Action<K, V>) {
    a.Write? && n > 0 ==> forall k <- a.items :: h(k) % n == a.i
  }

  ghost predicate Homed<K(!new), V>(h: K -> nat, s: State<K, V>) {
    forall i: nat, k: K :: i < |s.lanes| && (k in s.lanes[i].items || k in s.lanes[i].snap) ==> h(k) % |s.lanes| == i
  }

  lemma StepKeepsHomed<K(!new), V>(h: K -> nat, s: State<K, V>, a: Action<K, V>)
    requires Homed(h, s) && AtHome(h, |s.lanes|, a) && Do(s, a).Some?
    ensures Homed(h, Do(s, a).value) && |Do(s, a).value.lanes| == |s.lanes|
  {
    var s' := Do(s, a).value;
    forall i: nat, k: K | i < |s'.lanes| && (k in s'.lanes[i].items || k in s'.lanes[i].snap)
      ensures h(k) % |s'.lanes| == i
    {
      assert k in s.lanes[i].items || k in s.lanes[i].snap || (a.Write? && k in a.items && a.i == i);
    }
  }

  lemma {:induction false} RunsKeepHomed<K(!new), V>(h: K -> nat, s: State<K, V>, run: seq<Action<K, V>>)
    requires Homed(h, s) && (forall a <- run :: AtHome(h, |s.lanes|, a)) && Exec(s, run).Some?
    ensures Homed(h, Exec(s, run).value)
    decreases |run|
  {
    if run != [] {
      StepKeepsHomed(h, s, run[0]);
      RunsKeepHomed(h, Do(s, run[0]).value, run[1..]);
    }
  }

  /** In every interleaving with writers, Items returns the union of what the shards held when they were locked. */
  lemma ItemsAreTheSnapshots<K(!new), V>(h: K -> nat, ms: seq<map<K, V>>, run: seq<Action<K, V>>)
    requires Partitioned(h, ms) && (forall a <- run :: AtHome(h, |ms|, a)) && Exec(Init(ms), run).Some?
    ensures var s := Exec(Init(ms), run).value; s.closed ==> Collect(s.out) == Union(Snaps(s))
  {
    StartKeepsInv(ms);
    RunsKeepInv(Init(ms), run);
    RunsKeepHomed(h, Init(ms), run);
    var s := Exec(Init(ms), run).value;
    if s.closed {
      assert Partitioned(h, Snaps(s));
      PartitionedIsApart(h, Snaps(s));
      CollectsTheSnapshots(s);
    }
  }

  /** With no writer, every shard is still what it was, and so is every snapshot. */
  ghost predicate Untouched<K, V>(s: State<K, V>, ms: seq<map<K, V>>) {
    |s.lanes| == |ms| && forall i :: 0 <= i < |ms| ==>
      s.lanes[i].items == ms[i] && (!s.lanes[i].filler.Starting? ==> s.lanes[i].snap == ms[i])
  }

  lemma {:induction false} QuietRunsKeepUntouched<K(!new), V>(
    s: State<K, V>, ms: seq<map<K, V>>, run: seq<Action<K, V>>)
    requires Untouched(s, ms) && (forall a <- run :: !a.Write?) && Exec(s, run).Some?
    ensures Untouched(Exec(s, run).value, ms)
    decreases |run|
  {
    if run != [] {
      QuietRunsKeepUntouched(Do(s, run[0]).value, ms, run[1..]);
    }
  }

  /** With no writer, Items returns the map. */
  lemma ItemsAreTheMap<K(!new), V>(h: K -> nat, ms: seq<map<K, V>>, run: seq<Action<K, V>>)
    requires Partitioned(h, ms) && (forall a <- run :: !a.Write?) && Exec(Init(ms), run).Some?
    ensures var s := Exec(Init(ms), run).value; s.closed ==> Collect(s.out) == Union(ms)
  {
    StartKeepsInv(ms);
    RunsKeepInv(Init(ms), run);
    QuietRunsKeepUntouched(Init(ms), ms, run);
    ItemsAreTheSnapshots(h, ms, run);
    var s := Exec(Init(ms), run).value;
    if s.closed {
      assert Snaps(s) == ms;
    }
  }

  // ----- what a snapshot is, in terms of the run

  /** What a run does to shard `i` and to the snapshot of it. */
  datatype Watched<K, V> = Watched(items: map<K, V>, snap: Option<map<K, V>>)

  function Watch<K(==), V>(v: Watched<K, V>, run: seq<Action<K, V>>, i: nat): Watched<K, V>
    decreases |run|
  {
    if run == [] then v
    else match run[0]
      case Write(j, items) => Watch(if j == i then v.(items := items) else v, run[1..], i)
      case Lock(j) => Watch(if j == i then v.(snap := Some(v.items)) else v, run[1..], i)
      case _ => Watch(v, run[1..], i)
  }

  ghost predicate Watches<K, V>(s: State<K, V>, v: Watched<K, V>, i: nat) {
    && i < |s.lanes| && s.lanes[i].items == v.items
    && (s.lanes[i].filler.Starting? <==> v.snap.None?)
    && (v.snap.Some? ==> s.lanes[i].snap == v.snap.value)
  }

  lemma {:induction false} RunsAreWatched<K(!new), V>(
    s: State<K, V>, v: Watched<K, V>, run: seq<Action<K, V>>, i: nat)
    requires Watches(s, v, i) && Exec(s, run).Some?
    ensures Watches(Exec(s, run).value, Watch(v, run, i), i)
    decreases |run|
  {
    if run != [] {
      var a, s' := run[0], Do(s, run[0]).value;
      var v' := if a == Lock(i) then v.(snap := Some(v.items))
                else if a.Write? && a.i == i then v.(items := a.items) else v;
      assert Watches(s', v', i);
      RunsAreWatched(s', v', run[1..], i);
    }
  }

  /**
   In every run: a shard holds what was last written to it, and its snapshot is what it held when
   the walk locked it; so, with `ItemsAreTheSnapshots`, Items is made of the last writes before
   each lock.
   */
  lemma SnapshotsAreLastWrites<K(!new), V>(ms: seq<map<K, V>>, run: seq<Action<K, V>>, i: nat)
    requires Exec(Init(ms), run).Some? && i < |ms|
    ensures var s := Exec(Init(ms), run).value; var v := Watch(Watched(ms[i], None), run, i);
      && i < |s.lanes| && s.lanes[i].items == v.items
      && (s.closed ==> v.snap == Some(s.lanes[i].snap))
  {
    RunsAreWatched(Init(ms), Watched(ms[i], None), run, i);
    StartKeepsInv(ms);
    RunsKeepInv(Init(ms), run);
  }

  /** A writer waits for nothing but a walk that holds the lock of its shard. */
  lemma WritersWaitOnlyForTheLock<K(!new), V>(s: State<K, V>, i: nat, items: map<K, V>)
    requires i < |s.lanes|
    ensures Do(s, Write(i, items)).Some? <==> !s.lanes[i].filler.Filling?
    ensures Do(s, Consume).Some? <==> s.taken < |s.out|
  {
  }
}
