/** What one critical section of the queue does to its value. */
module QueueValue {
  datatype Queue<T> = Queue(open: bool, contents: seq<T>)

  function Accept<T>(q: Queue<T>, v: T): Queue<T> {
    if q.open then q.(contents := q.contents + [v]) else q
  }

  function Rest<T>(q: Queue<T>): Queue<T> {
    if q.contents == [] then q else q.(contents := q.contents[1..])
  }

  function Shut<T>(q: Queue<T>): Queue<T> {
    q.(open := false)
  }
}

/**
 The linked queue of utils/Queue/mqueue.go on the heap: nodes rewired in place, a tail that is
 null while there is at most one node, and a pool from which nodes are used again.
 */
module MQueue {
  import opened QueueValue

  class Node<T> {
    var value: T
    var next: Node?<T>

    constructor (v: T)
      ensures value == v && next == null
    {
      value := v;
      next := null;
    }
  }

  function NodeAt<T>(ns: seq<Node<T>>, i: nat): Node?<T> {
    if i < |ns| then ns[i] else null
  }

  ghost predicate Distinct<T>(ns: seq<Node<T>>) {
    forall i, j :: 0 <= i < j < |ns| ==> ns[i] != ns[j]
  }

  ghost predicate Linked<T>(ns: seq<Node<T>>)
    reads ns
  {
    forall i :: 0 <= i < |ns| ==> ns[i].next == NodeAt(ns, i + 1)
  }

  ghost predicate Holding<T>(ns: seq<Node<T>>, vs: seq<T>)
    reads ns
  {
    |vs| == |ns| && forall i :: 0 <= i < |ns| ==> ns[i].value == vs[i]
  }

  /** The list with these ends and this count is the chain of `ns` and stores `vs`. */
  ghost predicate Represents<T>(head: Node?<T>, tail: Node?<T>, count: int, ns: seq<Node<T>>, vs: seq<T>)
    reads ns
  {
    && Distinct(ns) && Linked(ns) && Holding(ns, vs)
    && head == NodeAt(ns, 0)
    && tail == (if |ns| <= 1 then null else ns[|ns| - 1])
    && count == |ns|
  }

  /** Pooled nodes hold neither a value nor a link. */
  ghost predicate Cleared<T>(pool: set<Node<T>>, zero: T)
    reads pool
  {
    forall n <- pool :: n.next == null && n.value == zero
  }

  /** Pooled nodes are never live. */
  ghost predicate Apart<T>(pool: set<Node<T>>, ns: seq<Node<T>>) {
    forall n <- pool :: n !in ns
  }

  lemma WithoutFirst<T>(ns: seq<Node<T>>, vs: seq<T>)
    requires ns != [] && Distinct(ns) && Linked(ns) && Holding(ns, vs)
    ensures Distinct(ns[1..]) && Linked(ns[1..]) && Holding(ns[1..], vs[1..])
    ensures ns[0] !in ns[1..] && ns[0].next == NodeAt(ns[1..], 0) && ns[0].value == vs[0]
  {
    assert ns[0].next == NodeAt(ns, 1);
    forall i | 0 <= i < |ns[1..]| ensures ns[1..][i].next == NodeAt(ns[1..], i + 1) {
      assert ns[1..][i] == ns[i + 1];
    }
  }

  lemma WithLast<T>(ns: seq<Node<T>>, vs: seq<T>, n: Node<T>)
    requires Distinct(ns) && Holding(ns, vs) && n !in ns && n.next == null
    requires forall i :: 0 <= i < |ns| ==> ns[i].next == NodeAt(ns + [n], i + 1)
    ensures Distinct(ns + [n]) && Linked(ns + [n]) && Holding(ns + [n], vs + [n.value])
  {
  }

  /** `n` starts a chain of links that visits exactly `ns` and ends. */
  ghost predicate Chain<T>(n: Node?<T>, ns: seq<Node<T>>)
    reads ns
    decreases |ns|
  {
    if ns == [] then n == null else n == ns[0] && Chain(ns[0].next, ns[1..])
  }

  class MQueue<T> {
    var head: Node?<T>
    var tail: Node?<T>
    var status: bool
    var count: int
    var nodePool: set<Node<T>>
    const zeroValue: T

    ghost var nodes: seq<Node<T>>    // the live nodes in order
    ghost var contents: seq<T>       // their values

    ghost predicate Valid()
      reads this, nodes, nodePool
    {
      Represents(head, tail, count, nodes, contents) && Cleared(nodePool, zeroValue) && Apart(nodePool, nodes)
    }

    ghost predicate AddedLast(before: seq<Node<T>>)
      reads this
    {
      |nodes| == |before| + 1 && nodes[..|before|] == before
    }

    ghost function Value(): Queue<T>
      reads this
    {
      Queue(status, contents)
    }

    constructor (zero: T)
      ensures Valid() && Value() == Queue(true, [])
      ensures zeroValue == zero && fresh(nodePool) && fresh(nodes)
    {
      head, tail, status, count, nodePool, zeroValue := null, null, true, 0, {}, zero;
      nodes, contents := [], [];
    }

    /** Following the links from the head visits each live node once and then ends. */
    lemma LinksEnd(k: nat)
      requires Valid() && k <= |nodes|
      ensures Chain(NodeAt(nodes, k), nodes[k..])
      decreases |nodes| - k
    {
      if k < |nodes| {
        LinksEnd(k + 1);
        assert nodes[k..][1..] == nodes[k + 1..];
      }
    }

    method Close()
      requires Valid()
      modifies this`status
      ensures Valid() && Value() == Shut(old(Value())) == Queue(false, old(contents))
    {
      status := false;
    }

    /** The pool may have dropped any of its nodes, and may hand out any that is left or a new one. */
    method GetNode() returns (n: Node<T>)
      requires Valid()
      modifies this`nodePool
      ensures Valid()
      ensures nodePool <= old(nodePool) && n !in nodePool && n !in nodes
      ensures n in old(nodePool) || fresh(n)
    {
      var kept: set<Node<T>> :| kept <= nodePool;
      nodePool := kept;
      if * {
        n := new Node(zeroValue);
      } else if kept == {} {
        n := new Node(zeroValue);
      } else {
        n :| n in nodePool;
        nodePool := nodePool - {n};
      }
    }

    method FillNode(v: T) returns (n: Node<T>)
      requires Valid()
      modifies this`nodePool, nodePool
      ensures Valid()
      ensures nodePool <= old(nodePool) && n !in nodePool && n !in nodes
      ensures n in old(nodePool) || fresh(n)
      ensures n.value == v && n.next == null
      ensures unchanged(`nodes, `contents)
      ensures unchanged(`status)
    {
      n := GetNode();
      n.value := v;
      n.next := null;
    }

    method LinkAfter(last: Node<T>, n: Node<T>)
      requires Valid() && nodes != [] && last == nodes[|nodes| - 1]
      requires n !in nodes && n !in nodePool && n.next == null
      modifies last`next
      ensures Distinct(nodes + [n]) && Linked(nodes + [n]) && Holding(nodes + [n], contents + [n.value])
      ensures Cleared(nodePool, zeroValue) && unchanged(this)
    {
      last.next := n;
      WithLast(nodes, contents, n);
    }

    /** Rewires the list so that `n` becomes its last node. */
    method MoveEnds(n: Node<T>)
      requires Valid() && n !in nodes && n !in nodePool && n.next == null
      modifies this`head, this`tail, nodes
      ensures Represents(head, tail, count + 1, nodes + [n], contents + [n.value])
      ensures Cleared(nodePool, zeroValue)
      ensures unchanged(`status, `count, `nodes, `contents, `nodePool)
    {
      if head == null {
        WithLast(nodes, contents, n);
        head := n;
      } else if tail == null {
        LinkAfter(head, n);
        tail := n;
      } else {
        LinkAfter(tail, n);
        tail := n;
      }
    }

    /** Counts a node that the links already reach. */
    method CountIn(n: Node<T>)
      requires Represents(head, tail, count + 1, nodes + [n], contents + [n.value])
      requires Cleared(nodePool, zeroValue) && Apart(nodePool, nodes) && n !in nodePool
      modifies this`count, this`nodes, this`contents
      ensures Valid() && nodes == old(nodes) + [n] && contents == old(contents) + [n.value]
    {
      count := count + 1;
      nodes, contents := nodes + [n], contents + [n.value];
    }

    method Append(n: Node<T>)
      requires Valid() && n !in nodes && n !in nodePool && n.next == null
      modifies this`head, this`tail, this`count, this`nodes, this`contents, nodes
      ensures Valid() && nodes == old(nodes) + [n]
      ensures contents == old(contents) + [n.value]
      ensures unchanged(`status, `nodePool)
    {
      MoveEnds(n);
      CountIn(n);
    }

    method Enqueue(v: T) returns (ok: bool)
      requires Valid()
      modifies this, nodes, nodePool
      ensures Valid() && nodePool <= old(nodePool)
      ensures if ok then AddedLast(old(nodes)) else nodes == old(nodes)
      ensures ok ==> nodes[|nodes| - 1] in old(nodePool) || fresh(nodes[|nodes| - 1])
      ensures ok == old(status)
      ensures Value() == Accept(old(Value()), v)
      ensures contents == if old(status) then old(contents) + [v] else old(contents)
      ensures status == old(status)
    {
      if !status {
        return false;
      }
      var n := FillNode(v);
      Append(n);
      return true;
    }

    /** Unlinks the first node. */
    method Unlink() returns (oldHead: Node<T>)
      requires Valid() && head != null
      modifies this`head, this`tail, this`count, this`nodes, this`contents
      ensures Valid() && [oldHead] + nodes == old(nodes)
      ensures oldHead !in nodes && oldHead !in nodePool
      ensures [oldHead.value] + contents == old(contents) && unchanged(`nodePool)
      ensures unchanged(`status)
    {
      oldHead := head;
      WithoutFirst(nodes, contents);
      if oldHead.next == null {
        head := null;
      } else {
        head := oldHead.next;
        if head == tail {
          tail := null;
        }
      }
      count := count - 1;
      nodes, contents := nodes[1..], contents[1..];
    }

    method Recycle(n: Node<T>)
      requires Valid() && n !in nodes && n !in nodePool
      modifies this`nodePool, n
      ensures Valid() && nodePool == old(nodePool) + {n}
      ensures unchanged(`nodes, `contents)
      ensures unchanged(`status)
    {
      n.value := zeroValue;
      n.next := null;
      nodePool := nodePool + {n};
    }

    method Dequeue() returns (t: T, ok: bool, isClose: bool)
      requires Valid()
      modifies this, nodes
      ensures Valid()
      ensures if ok then old(nodes) != [] && [old(nodes)[0]] + nodes == old(nodes) else nodes == old(nodes)
      ensures nodePool == old(nodePool) + if ok then {old(nodes)[0]} else {}
      ensures isClose == !old(status)
      ensures ok <==> old(contents) != []
      ensures t == if ok then old(contents)[0] else zeroValue
      ensures Value() == Rest(old(Value()))
      ensures contents == (if ok then old(contents)[1..] else []) && status == old(status)
    {
      isClose := !status;
      if head == null {
        return zeroValue, false, isClose;
      }
      var oldHead := Unlink();
      t := oldHead.value;
      Recycle(oldHead);
      ok := true;
    }

    method Count() returns (c: int)
      requires Valid()
      ensures c == |contents|
    {
      c := count;
    }
  }
}
