/**
 Lists of items packed one after the other.

 An item is described by a writer `enc`, a reader `item` and the values `valid` that the
 reader can return. `Inverse` says that reader and writer undo each other; the lemmas lift
 that to whole lists, which is how every repeated structure of the ClientHello is read.
 */
module Codec {
  import opened Prelude
  import opened Bytes

  /** Reads items until the input is used up; fails if an item cannot be read. */
  function List<T>(item: bytes -> Parsed<T>, b: bytes): Option<seq<T>>
    decreases |b|
  {
    if b == [] then Some([])
    else
      match item(b)
      case Stuck => None
      case Got(v, rest) =>
        if |b| <= |rest| then None
        else match List(item, rest)
          case None => None
          case Some(vs) => Some([v] + vs)
  }

  /** Writes the items one after the other. */
  function Flat<T>(enc: T -> bytes, ts: seq<T>): bytes {
    if ts == [] then [] else enc(ts[0]) + Flat(enc, ts[1..])
  }

  /** The reader takes back `t` from in front of `rest`. */
  ghost predicate TakesBack<T>(enc: T -> bytes, valid: T -> bool, item: bytes -> Parsed<T>, t: T, rest: bytes) {
    valid(t) ==> enc(t) != [] && item(enc(t) + rest) == Got(t, rest)
  }

  /** What the reader takes from `b` is what the writer would have put there. */
  ghost predicate TakesOnly<T>(enc: T -> bytes, valid: T -> bool, item: bytes -> Parsed<T>, b: bytes) {
    item(b).Got? ==> valid(item(b).value) && enc(item(b).value) + item(b).rest == b
  }

  ghost predicate Inverse<T(!new)>(enc: T -> bytes, valid: T -> bool, item: bytes -> Parsed<T>) {
    && (forall t: T, rest: bytes :: TakesBack(enc, valid, item, t, rest))
    && (forall b: bytes :: TakesOnly(enc, valid, item, b))
  }

  lemma {:induction false} ListOfFlat<T(!new)>(enc: T -> bytes, valid: T -> bool, item: bytes -> Parsed<T>, ts: seq<T>)
    requires Inverse(enc, valid, item)
    requires forall t <- ts :: valid(t)
    ensures List(item, Flat(enc, ts)) == Some(ts)
  {
    if ts != [] {
      var tail := Flat(enc, ts[1..]);
      assert TakesBack(enc, valid, item, ts[0], tail);
      ListOfFlat(enc, valid, item, ts[1..]);
      assert [ts[0]] + ts[1..] == ts;
    }
  }

  lemma {:induction false} FlatOfList<T(!new)>(enc: T -> bytes, valid: T -> bool, item: bytes -> Parsed<T>, b: bytes)
    requires Inverse(enc, valid, item)
    requires List(item, b).Some?
    ensures forall t <- List(item, b).value :: valid(t)
    ensures Flat(enc, List(item, b).value) == b
    decreases |b|
  {
    if b != [] {
      assert TakesOnly(enc, valid, item, b);
      var rest := item(b).rest;
      FlatOfList(enc, valid, item, rest);
      var ts := List(item, b).value;
      assert ts[1..] == List(item, rest).value;
    }
  }

  lemma {:induction false} FlatAppend<T>(enc: T -> bytes, a: seq<T>, b: seq<T>)
    ensures Flat(enc, a + b) == Flat(enc, a) + Flat(enc, b)
  {
    if a == [] {
      assert a + b == b;
    } else {
      assert (a + b)[1..] == a[1..] + b;
      FlatAppend(enc, a[1..], b);
    }
  }

  lemma FlatSnoc<T>(enc: T -> bytes, a: seq<T>, t: T)
    ensures Flat(enc, a + [t]) == Flat(enc, a) + enc(t)
  {
    FlatAppend(enc, a, [t]);
    assert Flat(enc, [t]) == enc(t) + Flat(enc, []);
  }

  /** `acc` put in front of the outcome of reading the rest. */
  function After<T>(acc: seq<T>, rest: Option<seq<T>>): (r: Option<seq<T>>)
    ensures acc == [] ==> r == rest
  {
    match rest
    case None => None
    case Some(vs) =>
      assert [] + vs == vs;
      Some(acc + vs)
  }

  /** One turn of a reading loop: moving the next item to the accumulator keeps the outcome. */
  lemma AfterStep<T>(acc: seq<T>, item: bytes -> Parsed<T>, b: bytes)
    requires b != [] && item(b).Got? && |item(b).rest| < |b|
    ensures After(acc, List(item, b)) == After(acc + [item(b).value], List(item, item(b).rest))
  {
    var v, rest := item(b).value, item(b).rest;
    if List(item, rest).Some? {
      var vs := List(item, rest).value;
      assert acc + ([v] + vs) == acc + [v] + vs;
    }
  }
}
