/** What the ClientHello reader promises about whole messages: the order of the extensions does not matter. */
module ClientHelloProperties {
  import opened Prelude
  import opened Bytes
  import opened Codec
  import opened ClientHelloGrammar
  import opened ClientHelloMessage

  // ----- order of extensions

  /** The bytes of a ClientHello with the extensions `xs`, well formed or not. */
  function Framed(h: Head, xs: seq<RawExt>): bytes {
    WriteHead(h, Flat(EncRaw, xs))
  }

  predicate Sendable(h: Head, xs: seq<RawExt>) {
    ValidHead(h) && (forall x <- xs :: ValidRaw(x)) && |Flat(EncRaw, xs)| < 0x1_0000
  }

  /** Different extensions write different fields. */
  lemma ApplyCommutes(m: Hello, d: Ext, e: Ext)
    requires IdOf(d) != IdOf(e)
    ensures Apply(Apply(m, d), e) == Apply(Apply(m, e), d)
  {
  }

  lemma IdOfDecoded(x: RawExt)
    requires DecodeExt(x).Some?
    ensures IdOf(DecodeExt(x).value) == x.id
  {
    JoinOfCut(ShapeOf(x.id), x.body);
    PartsOfInterpret(x.id, Cut(ShapeOf(x.id), x.body).value);
  }

  /** The outcome of reading the extensions one by one. */
  function Fold(m: Hello, xs: seq<RawExt>): Option<Hello>
    decreases |xs|
  {
    if xs == [] then Some(m)
    else match DecodeExt(xs[0]) case None => None case Some(e) => Fold(Apply(m, e), xs[1..])
  }

  lemma {:induction false} FoldIsDecodeThenApply(m: Hello, xs: seq<RawExt>)
    ensures Fold(m, xs) == if DecodeAll(xs).None? then None else Some(ApplyAll(m, DecodeAll(xs).value))
    decreases |xs|
  {
    if xs != [] && DecodeExt(xs[0]).Some? {
      var e := DecodeExt(xs[0]).value;
      FoldIsDecodeThenApply(Apply(m, e), xs[1..]);
      if DecodeAll(xs[1..]).Some? {
        assert ([e] + DecodeAll(xs[1..]).value)[1..] == DecodeAll(xs[1..]).value;
      }
    }
  }

  /** An extension may be moved to the front of others with different ids. */
  lemma {:induction false} MoveToFront(m: Hello, a: seq<RawExt>, x: RawExt, b: seq<RawExt>)
    requires forall y <- a :: y.id != x.id
    ensures Fold(m, a + [x] + b) == Fold(m, [x] + (a + b))
    decreases |a|
  {
    if a == [] {
      assert a + [x] + b == [x] + (a + b);
    } else {
      var y := a[0];
      assert (a + [x] + b)[1..] == a[1..] + [x] + b;
      assert ([x] + (a + b))[1..] == a + b && (a + b)[1..] == a[1..] + b;
      if DecodeExt(y).Some? {
        var e := DecodeExt(y).value;
        MoveToFront(Apply(m, e), a[1..], x, b);
        assert ([x] + (a[1..] + b))[1..] == a[1..] + b;
        if DecodeExt(x).Some? {
          IdOfDecoded(x);
          IdOfDecoded(y);
          ApplyCommutes(m, DecodeExt(x).value, e);
        }
      }
    }
  }

  /** Taking one `x` away on both sides. */
  lemma Without<T>(x: T, rest: seq<T>, a: seq<T>, b: seq<T>)
    requires multiset([x] + rest) == multiset(a + [x] + b)
    ensures multiset(rest) == multiset(a + b)
  {
    assert multiset([x] + rest) - multiset{x} == multiset(rest);
    assert multiset(a + [x] + b) == multiset(a) + multiset{x} + multiset(b);
    assert multiset(a) + multiset{x} + multiset(b) - multiset{x} == multiset(a + b);
  }

  /** Where a permutation put the first element. */
  lemma Locate<T>(xs: seq<T>, ys: seq<T>) returns (k: nat)
    requires xs != [] && multiset(xs) == multiset(ys)
    ensures k < |ys| && ys[k] == xs[0] && ys == ys[..k] + [xs[0]] + ys[k + 1..]
    ensures multiset(xs[1..]) == multiset(ys[..k] + ys[k + 1..])
  {
    assert xs == [xs[0]] + xs[1..];
    assert xs[0] in multiset(ys);
    k :| 0 <= k < |ys| && ys[k] == xs[0];
    assert ys == ys[..k] + [xs[0]] + ys[k + 1..];
    Without(xs[0], xs[1..], ys[..k], ys[k + 1..]);
  }

  lemma DistinctWithout(ys: seq<RawExt>, k: nat)
    requires k < |ys| && Distinct(ys)
    ensures Distinct(ys[..k] + ys[k + 1..]) && forall y <- ys[..k] :: y.id != ys[k].id
  {
  }

  lemma {:induction false} FoldOfPermutation(m: Hello, xs: seq<RawExt>, ys: seq<RawExt>)
    requires multiset(xs) == multiset(ys) && Distinct(ys)
    ensures Fold(m, xs) == Fold(m, ys)
    decreases |xs|
  {
    if xs == [] {
      assert |multiset(ys)| == 0;
    } else {
      var k := Locate(xs, ys);
      var x, a, b := xs[0], ys[..k], ys[k + 1..];
      DistinctWithout(ys, k);
      MoveToFront(m, a, x, b);
      assert ([x] + (a + b))[1..] == a + b;
      if DecodeExt(x).Some? {
        FoldOfPermutation(Apply(m, DecodeExt(x).value), xs[1..], a + b);
      }
    }
  }

  lemma {:induction false} DistinctCountsOnce(xs: seq<RawExt>, x: RawExt)
    requires Distinct(xs)
    ensures multiset(xs)[x] <= 1
  {
    if xs != [] {
      assert xs == [xs[0]] + xs[1..];
      DistinctCountsOnce(xs[1..], x);
      assert x == xs[0] ==> x !in xs[1..];
    }
  }

  lemma RepeatCountsTwice(ys: seq<RawExt>, i: nat, j: nat)
    requires i < j < |ys| && ys[i] == ys[j]
    ensures multiset(ys)[ys[i]] >= 2
  {
    assert ys == ys[..j] + ys[j..];
    assert ys[..j][i] == ys[i] && ys[j..][0] == ys[i];
    assert ys[i] in multiset(ys[..j]) && ys[i] in multiset(ys[j..]);
  }

  lemma DistinctOfPermutation(xs: seq<RawExt>, ys: seq<RawExt>)
    requires multiset(xs) == multiset(ys) && Distinct(xs)
    ensures Distinct(ys)
  {
    forall i, j | 0 <= i < j < |ys| ensures ys[i].id != ys[j].id {
      assert ys[i] in multiset(xs) && ys[j] in multiset(xs);
      DistinctCountsOnce(xs, ys[i]);
      if ys[i] == ys[j] {
        RepeatCountsTwice(ys, i, j);
      }
    }
  }

  /** The outcome on a block of extensions, in terms of the list alone. */
  lemma ReadBlockOfFlat(xs: seq<RawExt>)
    requires forall x <- xs :: ValidRaw(x)
    ensures ReadBlock(Flat(EncRaw, xs)) == if Distinct(xs) && PskLast(xs) then DecodeAll(xs) else None
  {
    InverseRaw();
    ListOfFlat(EncRaw, ValidRaw, DecRaw, xs);
  }

  lemma OutcomeOfFramed(h: Head, xs: seq<RawExt>)
    requires Sendable(h, xs)
    ensures ParseHello(Framed(h, xs)) == if Distinct(xs) && PskLast(xs) then Fold(Base(h), xs) else None
  {
    ReadOfWriteHead(h, Flat(EncRaw, xs));
    ReadBlockOfFlat(xs);
    FoldIsDecodeThenApply(Base(h), xs);
  }

  lemma {:induction false} FlatLengthOfPermutation(xs: seq<RawExt>, ys: seq<RawExt>)
    requires multiset(xs) == multiset(ys)
    ensures |Flat(EncRaw, xs)| == |Flat(EncRaw, ys)|
  {
    if xs == [] {
      assert |multiset(ys)| == 0;
    } else {
      var k := Locate(xs, ys);
      var x, a, b := xs[0], ys[..k], ys[k + 1..];
      FlatLengthOfPermutation(xs[1..], a + b);
      FlatAppend(EncRaw, a + [x], b);
      FlatSnoc(EncRaw, a, x);
      FlatAppend(EncRaw, a, b);
    }
  }

  /**
   Any permutation of the extensions that keeps pre_shared_key last has the same outcome:
   both are rejected, or both are accepted with the same message.
   */
  lemma PermutationKeepsOutcome(h: Head, xs: seq<RawExt>, ys: seq<RawExt>)
    requires Sendable(h, xs) && multiset(xs) == multiset(ys)
    requires PskLast(xs) && PskLast(ys)
    ensures ParseHello(Framed(h, xs)) == ParseHello(Framed(h, ys))
  {
    FlatLengthOfPermutation(xs, ys);
    forall y <- ys ensures ValidRaw(y) { assert y in multiset(xs); }
    OutcomeOfFramed(h, xs);
    OutcomeOfFramed(h, ys);
    if Distinct(xs) {
      DistinctOfPermutation(xs, ys);
      FoldOfPermutation(Base(h), xs, ys);
    } else if Distinct(ys) {
      DistinctOfPermutation(ys, xs);
    }
  }
}
