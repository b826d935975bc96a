/**
 The reader of server/sniffing/tls/client_hello.go: a cursor advanced over the input, with
 the message filled in as it goes, also when it ends in an error.
 */
module ClientHelloParser {
  import opened Prelude
  import opened Bytes
  import opened Codec
  import opened ClientHelloGrammar
  import opened ClientHelloMessage
  import ClientHelloBytes
  import ClientHelloDisplays

  datatype Outcome = Panicked | Rejected | Accepted

  // ----- where a server name comes from

  /** `name` stands in the list behind name type 0 and its own length, after whole names. */
  ghost predicate NameListed(nameList: bytes, name: bytes) {
    exists before: seq<Name>, tail: bytes :: NameAt(nameList, name, before, tail)
  }

  ghost predicate NameAt(nameList: bytes, name: bytes, before: seq<Name>, tail: bytes) {
    && 0 < |name| < 0x1_0000
    && (forall n <- before :: ValidName(n))
    && nameList == Flat(EncName, before) + (EncName(Name(0, name)) + tail)
  }

  /** `name` stands in the name list of the body of an SNI extension, within the length that the list declares. */
  ghost predicate NameIn(body: bytes, name: bytes) {
    ReadPrefixed16(body).Got? && NameListed(ReadPrefixed16(body).value, name)
  }

  /** The SNI extension listing `name` stands in the block, after whole extensions. */
  ghost predicate SniIn(block: bytes, name: bytes) {
    exists earlier: seq<RawExt>, body: bytes, after: bytes :: SniAt(block, name, earlier, body, after)
  }

  ghost predicate SniAt(block: bytes, name: bytes, earlier: seq<RawExt>, body: bytes, after: bytes) {
    && |body| < 0x1_0000
    && (forall x <- earlier :: ValidRaw(x))
    && block == Flat(EncRaw, earlier) + (EncRaw(RawExt(EXT_SERVER_NAME, body)) + after)
    && NameIn(body, name)
  }

  ghost predicate SniSlice(data: bytes, name: bytes) {
    ReadHead(data).Some? && SniIn(ReadHead(data).value.1, name)
  }

  /** A slice of a slice is a slice. */
  lemma SliceOfSlice(b: bytes, p: bytes, c: bytes, q: bytes, p': bytes, d: bytes, q': bytes)
    requires b == p + (c + q) && c == p' + (d + q')
    ensures b == p + p' + (d + (q' + q))
  {
  }

  lemma BlockEndsMessage(h: Head, block: bytes) returns (lead: bytes)
    requires |block| < 0x1_0000
    ensures WriteHead(h, block) == lead + (block + [])
  {
    lead := WriteFront(h) + Prefixed16(Flat(EncU16, h.suites)) + Prefixed8(h.compression) + Be16(|block|);
  }

  lemma NameSlice(body: bytes, name: bytes) returns (p: bytes, q: bytes)
    requires NameIn(body, name)
    ensures body == p + (EncName(Name(0, name)) + q)
  {
    var nameList, rest := ReadPrefixed16(body).value, ReadPrefixed16(body).rest;
    ReadWritePrefixed16(body);
    assert body == Be16(|nameList|) + (nameList + rest);
    var names, tail :| NameAt(nameList, name, names, tail);
    SliceOfSlice(body, Be16(|nameList|), nameList, rest, Flat(EncName, names), EncName(Name(0, name)), tail);
    p, q := Be16(|nameList|) + Flat(EncName, names), tail + rest;
  }

  lemma RawSlice(x: RawExt) returns (p: bytes)
    ensures EncRaw(x) == p + (x.body + [])
  {
    p := Be16(x.id) + Be16(|x.body| % 0x1_0000);
  }

  lemma BlockSlice(block: bytes, name: bytes) returns (p: bytes, q: bytes)
    requires SniIn(block, name)
    ensures block == p + (EncName(Name(0, name)) + q)
  {
    var earlier, body, end :| SniAt(block, name, earlier, body, end);
    var x := RawExt(EXT_SERVER_NAME, body);
    var p1 := RawSlice(x);
    SliceOfSlice(block, Flat(EncRaw, earlier), EncRaw(x), end, p1, body, []);
    var p2, q2 := NameSlice(body, name);
    SliceOfSlice(block, Flat(EncRaw, earlier) + p1, body, [] + end, p2, EncName(Name(0, name)), q2);
    p, q := Flat(EncRaw, earlier) + p1 + p2, q2 + ([] + end);
  }

  /** A server name found in the input is a contiguous slice of it, right behind name type 0 and its length. */
  lemma ServerNameIsSlice(data: bytes, name: bytes) returns (before: bytes, after: bytes)
    requires SniSlice(data, name)
    ensures data == before + (EncName(Name(0, name)) + after)
  {
    WriteOfReadHead(data);
    var (h, block) := ReadHead(data).value;
    var lead := BlockEndsMessage(h, block);
    var p, q := BlockSlice(block, name);
    SliceOfSlice(data, lead, block, [], p, EncName(Name(0, name)), q);
    before, after := lead + p, q + [];
  }

  method ReadU16s(packed: bytes) returns (ok: bool, ns: seq<u16>)
    ensures ok <==> List(DecU16, packed).Some?
    ensures ok ==> ns == List(DecU16, packed).value
  {
    var rest := packed;
    ns := [];
    while rest != []
      invariant List(DecU16, packed) == After(ns, List(DecU16, rest))
      decreases |rest|
    {
      var r := ReadU16(rest);
      if r.Stuck? {
        return false, ns;
      }
      AfterStep(ns, DecU16, rest);
      ns := ns + [r.value];
      rest := r.rest;
    }
    return true, ns;
  }

  /** The suites, and whether the renegotiation suite is among them. */
  method ReadSuites(packed: bytes) returns (ok: bool, suites: seq<u16>, renegotiation: bool)
    ensures ok <==> List(DecU16, packed).Some?
    ensures ok ==> suites == List(DecU16, packed).value
    ensures renegotiation <==> SCSV_RENEGOTIATION in suites
  {
    var rest := packed;
    suites, renegotiation := [], false;
    while rest != []
      invariant List(DecU16, packed) == After(suites, List(DecU16, rest))
      invariant renegotiation <==> SCSV_RENEGOTIATION in suites
      decreases |rest|
    {
      var r := ReadU16(rest);
      if r.Stuck? {
        return false, suites, renegotiation;
      }
      if r.value == SCSV_RENEGOTIATION {
        renegotiation := true;
      }
      AfterStep(suites, DecU16, rest);
      suites := suites + [r.value];
      rest := r.rest;
    }
    return true, suites, renegotiation;
  }

  /** Suites, compression methods and the bytes of the extensions block, which must end the input. */
  method ReadTail(s: bytes) returns (ok: bool, suites: seq<u16>, renegotiation: bool, compression: bytes, block: bytes)
    ensures ok <==> ReadBack(s).Some?
    ensures ok ==> ReadBack(s) == Some(Back(suites, compression, block))
    ensures renegotiation <==> SCSV_RENEGOTIATION in suites
  {
    suites, renegotiation, compression, block := [], false, [], [];
    var cipherSuites := ReadPrefixed16(s);
    if cipherSuites.Stuck? {
      return false, suites, renegotiation, compression, block;
    }
    ok, suites, renegotiation := ReadSuites(cipherSuites.value);
    if !ok {
      return;
    }
    var methods := ReadPrefixed8(cipherSuites.rest);
    if methods.Stuck? {
      return false, suites, renegotiation, compression, block;
    }
    compression := methods.value;
    if methods.rest == [] {
      return false, suites, renegotiation, compression, block;
    }
    var extensions := ReadPrefixed16(methods.rest);
    if extensions.Stuck? || extensions.rest != [] {
      return false, suites, renegotiation, compression, block;
    }
    block := extensions.value;
  }

  /** Length-prefixed strings that may not be empty: ALPN protocols and PSK binders. */
  method ReadStrings(packed: bytes) returns (ok: bool, ps: seq<bytes>)
    ensures ok <==> List(DecProto, packed).Some?
    ensures ok ==> ps == List(DecProto, packed).value
  {
    var rest := packed;
    ps := [];
    while rest != []
      invariant List(DecProto, packed) == After(ps, List(DecProto, rest))
      decreases |rest|
    {
      var r := ReadPrefixed8(rest);
      if r.Stuck? || r.value == [] {
        return false, ps;
      }
      AfterStep(ps, DecProto, rest);
      ps := ps + [r.value];
      rest := r.rest;
    }
    return true, ps;
  }

  method ReadKeyShares(packed: bytes) returns (ok: bool, shares: seq<KeyShare>)
    ensures ok <==> List(DecKeyShare, packed).Some?
    ensures ok ==> shares == List(DecKeyShare, packed).value
  {
    var rest := packed;
    shares := [];
    while rest != []
      invariant List(DecKeyShare, packed) == After(shares, List(DecKeyShare, rest))
      decreases |rest|
    {
      var group := ReadU16(rest);
      if group.Stuck? {
        return false, shares;
      }
      var data := ReadPrefixed16(group.rest);
      if data.Stuck? || data.value == [] {
        return false, shares;
      }
      AfterStep(shares, DecKeyShare, rest);
      shares := shares + [KeyShare(group.value, data.value)];
      rest := data.rest;
    }
    return true, shares;
  }

  method ReadIdentities(packed: bytes) returns (ok: bool, ids: seq<PskIdentity>)
    ensures ok <==> List(DecIdentity, packed).Some?
    ensures ok ==> ids == List(DecIdentity, packed).value
  {
    var rest := packed;
    ids := [];
    while rest != []
      invariant List(DecIdentity, packed) == After(ids, List(DecIdentity, rest))
      decreases |rest|
    {
      var name := ReadPrefixed16(rest);
      if name.Stuck? {
        return false, ids;
      }
      var age := ReadU32(name.rest);
      if age.Stuck? || name.value == [] {
        return false, ids;
      }
      AfterStep(ids, DecIdentity, rest);
      ids := ids + [PskIdentity(name.value, age.value)];
      rest := age.rest;
    }
    return true, ids;
  }

  // ----- the name list of the SNI extension

  predicate HostFree(names: seq<Name>) {
    forall n <- names :: n.kind != 0
  }

  predicate NamesOk(names: seq<Name>) {
    OneHostName(names) && NoTrailingDot(names)
  }

  lemma {:induction false} HostNameAppend(names: seq<Name>, n: Name)
    ensures HostName(names + [n]) == if HostFree(names) && n.kind == 0 then n.name else HostName(names)
    ensures HostFree(names) ==> HostName(names) == []
  {
    if names == [] {
      assert names + [n] == [n];
    } else {
      assert (names + [n])[1..] == names[1..] + [n];
      HostNameAppend(names[1..], n);
      assert names == [names[0]] + names[1..];
    }
  }

  /** One more name is fine exactly when it is no second host name and has no trailing dot. */
  lemma NamesOkAppend(names: seq<Name>, n: Name)
    requires NamesOk(names) && n.name != []
    ensures NamesOk(names + [n]) <==> n.kind != 0 || (HostFree(names) && n.name[|n.name| - 1] != DOT)
    ensures HostFree(names + [n]) <==> HostFree(names) && n.kind != 0
  {
    var ns := names + [n];
    assert forall i :: 0 <= i < |ns| ==> ns[i] == if i < |names| then names[i] else n;
    assert n in ns && forall m <- names :: m in ns;
    if n.kind == 0 && !HostFree(names) {
      var i :| 0 <= i < |names| && names[i].kind == 0;
      assert ns[i].kind == 0 && ns[|names|].kind == 0;
    }
  }

  /** A list whose beginning breaks a rule on names breaks it as a whole. */
  lemma NamesBroken(names: seq<Name>, more: seq<Name>)
    requires NamesOk(names + more)
    ensures NamesOk(names)
  {
    var ns := names + more;
    assert forall i :: 0 <= i < |names| ==> ns[i] == names[i];
    forall i, j | 0 <= i < j < |names| ensures names[i].kind != 0 || names[j].kind != 0 {
      assert ns[i].kind != 0 || ns[j].kind != 0;
    }
  }

  /** The loop over the name list, after the names `names`. */
  ghost predicate NamesSoFar(nameList: bytes, names: seq<Name>, rest: bytes) {
    NamesCut(nameList, names, rest) && NamesGood(names)
  }

  ghost predicate NamesCut(nameList: bytes, names: seq<Name>, rest: bytes) {
    && List(DecName, nameList) == After(names, List(DecName, rest))
    && nameList == Flat(EncName, names) + rest
    && (forall n <- names :: ValidName(n))
  }

  ghost predicate NamesGood(names: seq<Name>) {
    NamesOk(names) && (HostFree(names) <==> HostName(names) == [])
  }

  /** The next name with what is before and after it. */
  lemma NextNameStands(nameList: bytes, names: seq<Name>, rest: bytes)
    requires nameList == Flat(EncName, names) + rest && rest != [] && DecName(rest).Got?
    ensures var n, rest' := DecName(rest).value, DecName(rest).rest;
      ValidName(n) && nameList == Flat(EncName, names) + (EncName(n) + rest') == Flat(EncName, names + [n]) + rest'
  {
    InverseName();
    assert TakesOnly(EncName, ValidName, DecName, rest);
    FlatSnoc(EncName, names, DecName(rest).value);
  }

  lemma NextNameCut(nameList: bytes, names: seq<Name>, rest: bytes)
    requires NamesCut(nameList, names, rest) && rest != [] && DecName(rest).Got?
    ensures NamesCut(nameList, names + [DecName(rest).value], DecName(rest).rest)
    ensures DecName(rest).value.kind == 0 ==> NameListed(nameList, DecName(rest).value.name)
  {
    var n, rest' := DecName(rest).value, DecName(rest).rest;
    NextNameStands(nameList, names, rest);
    AfterStep(names, DecName, rest);
    if n.kind == 0 {
      assert NameAt(nameList, n.name, names, rest');
    }
  }

  lemma NextNameGood(names: seq<Name>, n: Name)
    requires NamesGood(names) && n.name != []
    ensures NamesGood(names + [n]) <==> n.kind != 0 || (HostFree(names) && n.name[|n.name| - 1] != DOT)
    ensures !NamesGood(names + [n]) ==> !NamesOk(names + [n])
  {
    HostNameAppend(names, n);
    NamesOkAppend(names, n);
  }

  /** Names that break a rule reject the whole list. */
  lemma BadNamesReject(nameList: bytes, names: seq<Name>, rest: bytes)
    requires NamesCut(nameList, names, rest) && !NamesOk(names)
    ensures List(DecName, nameList).None? || !NamesOk(List(DecName, nameList).value)
  {
    if List(DecName, nameList).Some? && NamesOk(List(DecName, nameList).value) {
      NamesBroken(names, List(DecName, rest).value);
    }
  }

  /** One name type and name. */
  method ReadName(b: bytes) returns (ok: bool, n: Name, rest: bytes)
    ensures ok <==> DecName(b).Got?
    ensures ok ==> DecName(b) == Got(n, rest) && |rest| < |b| && n.name != []
  {
    n, rest := Name(0, []), b;
    var kind := ReadU8(b);
    if kind.Stuck? {
      return false, n, rest;
    }
    var name := ReadPrefixed16(kind.rest);
    if name.Stuck? || name.value == [] {
      return false, n, rest;
    }
    return true, Name(kind.value, name.value), name.rest;
  }

  /** The loop over the rest of a name list, with `host` found before it. */
  function Scan(b: bytes, host: bytes): (bool, bytes)
    decreases |b|
  {
    if b == [] then (true, host)
    else
      match DecName(b)
      case Stuck => (false, host)
      case Got(n, rest) =>
        if n.kind != 0 then Scan(rest, host)
        else if host != [] then (false, host)
        else if n.name[|n.name| - 1] == DOT then (false, n.name)
        else Scan(rest, n.name)
  }

  /** The scan accepts exactly the lists that satisfy the rules, and finds their host name. */
  ghost predicate Scanned(nameList: bytes, r: (bool, bytes)) {
    && (r.0 <==> List(DecName, nameList).Some? && NamesOk(List(DecName, nameList).value))
    && (r.0 ==> r.1 == HostName(List(DecName, nameList).value))
    && (r.1 != [] ==> NameListed(nameList, r.1))
  }

  lemma {:induction false} ScanFrom(nameList: bytes, names: seq<Name>, rest: bytes)
    requires NamesSoFar(nameList, names, rest)
    requires HostName(names) != [] ==> NameListed(nameList, HostName(names))
    ensures Scanned(nameList, Scan(rest, HostName(names)))
    decreases |rest|
  {
    if rest == [] {
      assert names + [] == names;
    } else if DecName(rest).Got? {
      var n, rest' := DecName(rest).value, DecName(rest).rest;
      NextNameCut(nameList, names, rest);
      NextNameGood(names, n);
      HostNameAppend(names, n);
      if NamesGood(names + [n]) {
        ScanFrom(nameList, names + [n], rest');
      } else {
        BadNamesReject(nameList, names + [n], rest');
      }
    }
  }

  lemma ScanIsExact(nameList: bytes)
    ensures Scanned(nameList, Scan(nameList, []))
  {
    assert NamesSoFar(nameList, [], nameList);
    ScanFrom(nameList, [], nameList);
  }

  /** One turn of the loop over the name list: it ends with a verdict or goes on after one name. */
  method ReadNextName(b: bytes, host: bytes) returns (verdict: Option<bool>, serverName: bytes, rest: bytes)
    requires b != []
    ensures verdict.Some? ==> Scan(b, host) == (verdict.value, serverName)
    ensures verdict.None? ==> Scan(b, host) == Scan(rest, serverName) && |rest| < |b|
  {
    serverName := host;
    var read, n;
    read, n, rest := ReadName(b);
    if !read {
      return Some(false), host, b;
    }
    if n.kind == 0 {
      if serverName != [] {
        return Some(false), host, rest;
      }
      serverName := n.name;
      if serverName[|serverName| - 1] == DOT {
        return Some(false), serverName, rest;
      }
    }
    return None, serverName, rest;
  }

  /** The host name found; on errors it is the last one read. */
  method ReadNames(nameList: bytes) returns (ok: bool, serverName: bytes)
    ensures (ok, serverName) == Scan(nameList, [])
  {
    var rest := nameList;
    serverName := [];
    while rest != []
      invariant Scan(nameList, []) == Scan(rest, serverName)
      decreases |rest|
    {
      var verdict;
      verdict, serverName, rest := ReadNextName(rest, serverName);
      if verdict.Some? {
        return verdict.value, serverName;
      }
    }
    return true, serverName;
  }

  // ----- one extension

  method ReadServerName(extData: bytes) returns (ok: bool, serverName: bytes)
    ensures ok <==> DecodeExt(RawExt(EXT_SERVER_NAME, extData)).Some?
    ensures ok ==> serverName == HostName(DecodeExt(RawExt(EXT_SERVER_NAME, extData)).value.names)
    ensures serverName != [] ==> NameIn(extData, serverName)
  {
    var nameList := ReadPrefixed16(extData);
    if nameList.Stuck? || nameList.value == [] {
      return false, [];
    }
    var read;
    read, serverName := ReadNames(nameList.value);
    ScanIsExact(nameList.value);
    return read && nameList.rest == [], serverName;
  }

  method ReadIdentityList(b: bytes) returns (ok: bool, ids: seq<PskIdentity>, rest: bytes)
    ensures ok <==> ReadPrefixed16(b).Got? && Items(DecIdentity, ReadPrefixed16(b).value).Some?
    ensures ok ==> Items(DecIdentity, ReadPrefixed16(b).value) == Some(ids) && rest == ReadPrefixed16(b).rest
  {
    var identities := ReadPrefixed16(b);
    if identities.Stuck? || identities.value == [] {
      return false, [], b;
    }
    ok, ids := ReadIdentities(identities.value);
    rest := identities.rest;
  }

  method ReadBinderList(b: bytes) returns (ok: bool, bs: seq<bytes>)
    ensures ok <==> Whole16(b).Some? && Items(DecProto, Whole16(b).value).Some?
    ensures ok ==> Items(DecProto, Whole16(b).value) == Some(bs)
  {
    var binders := ReadPrefixed16(b);
    if binders.Stuck? || binders.value == [] {
      return false, [];
    }
    ok, bs := ReadStrings(binders.value);
    ok := ok && binders.rest == [];
  }

  lemma DecodePreSharedKey(b: bytes)
    ensures var ids, r := ReadPrefixed16(b), DecodeExt(RawExt(EXT_PRE_SHARED_KEY, b));
      if ids.Stuck? || Items(DecIdentity, ids.value).None? || Whole16(ids.rest).None? then r.None?
      else if Items(DecProto, Whole16(ids.rest).value).None? then r.None?
      else r == Some(PreSharedKey(Items(DecIdentity, ids.value).value, Items(DecProto, Whole16(ids.rest).value).value))
  {
    assert ShapeOf(EXT_PRE_SHARED_KEY) == Psk;
    assert Cut(Psk, b) == Halves(0, b);
  }

  method ReadPreSharedKey(extData: bytes) returns (ok: bool, ids: seq<PskIdentity>, bs: seq<bytes>)
    ensures ok <==> DecodeExt(RawExt(EXT_PRE_SHARED_KEY, extData)).Some?
    ensures ok ==> DecodeExt(RawExt(EXT_PRE_SHARED_KEY, extData)) == Some(PreSharedKey(ids, bs))
  {
    DecodePreSharedKey(extData);
    bs := [];
    var rest;
    ok, ids, rest := ReadIdentityList(extData);
    if ok {
      ok, bs := ReadBinderList(rest);
    }
  }

  // ----- the extensions block

  /** The loop over the extensions block, after the extensions `done`. */
  ghost predicate BlockSoFar(block: bytes, done: seq<RawExt>, rest: bytes, h: Head, m: Hello) {
    CutSoFar(block, done, rest) && MeansSoFar(done, h, m)
  }

  ghost predicate CutSoFar(block: bytes, done: seq<RawExt>, rest: bytes) {
    && List(DecRaw, block) == After(done, List(DecRaw, rest))
    && block == Flat(EncRaw, done) + rest
    && (forall x <- done :: ValidRaw(x) && (x.id == EXT_PRE_SHARED_KEY ==> rest == []))
    && Distinct(done) && PskLast(done)
  }

  ghost predicate MeansSoFar(done: seq<RawExt>, h: Head, m: Hello) {
    DecodeAll(done).Some? && m == ApplyAll(Base(h), DecodeAll(done).value)
  }

  lemma {:induction false} DecodeAllAppend(xs: seq<RawExt>, ys: seq<RawExt>)
    ensures DecodeAll(xs + ys) == if DecodeAll(xs).None? then None else After(DecodeAll(xs).value, DecodeAll(ys))
  {
    if xs == [] {
      assert xs + ys == ys;
    } else {
      assert (xs + ys)[1..] == xs[1..] + ys;
      DecodeAllAppend(xs[1..], ys);
      if DecodeExt(xs[0]).Some? && DecodeAll(xs[1..]).Some? && DecodeAll(ys).Some? {
        var e, es, fs := DecodeExt(xs[0]).value, DecodeAll(xs[1..]).value, DecodeAll(ys).value;
        assert [e] + (es + fs) == [e] + es + fs;
      }
    }
  }

  lemma BlockBegins(block: bytes, h: Head)
    ensures BlockSoFar(block, [], block, h, Base(h))
  {
  }

  lemma BlockEnds(block: bytes, done: seq<RawExt>, h: Head, m: Hello)
    requires BlockSoFar(block, done, [], h, m)
    ensures ReadBlock(block).Some? && m == ApplyAll(Base(h), ReadBlock(block).value)
  {
    assert done + [] == done;
  }

  /** An extension that may follow those in `done`. */
  ghost predicate Acceptable(done: seq<RawExt>, x: RawExt, rest: bytes) {
    && (forall y <- done :: y.id != x.id)
    && DecodeExt(x).Some?
    && (x.id == EXT_PRE_SHARED_KEY ==> rest == [])
  }

  lemma BlockStuck(block: bytes, done: seq<RawExt>, rest: bytes, h: Head, m: Hello)
    requires BlockSoFar(block, done, rest, h, m) && rest != [] && DecRaw(rest).Stuck?
    ensures ReadBlock(block).None?
  {
  }

  lemma BlockFails(block: bytes, done: seq<RawExt>, rest: bytes, h: Head, m: Hello)
    requires BlockSoFar(block, done, rest, h, m) && rest != [] && DecRaw(rest).Got?
    requires !Acceptable(done, DecRaw(rest).value, DecRaw(rest).rest)
    ensures ReadBlock(block).None?
  {
    var x, rest' := DecRaw(rest).value, DecRaw(rest).rest;
    AfterStep(done, DecRaw, rest);
    if List(DecRaw, rest').Some? {
      var more := List(DecRaw, rest').value;
      var xs := done + [x] + more;
      assert xs[|done|] == x && forall i :: 0 <= i < |done| ==> xs[i] == done[i];
      if y :| y in done && y.id == x.id {
        var i :| 0 <= i < |done| && done[i] == y;
        assert xs[i].id == xs[|done|].id;
      } else if DecodeExt(x).None? {
        assert DecodeAll([x]).None?;
        DecodeAllAppend(done, [x]);
        DecodeAllAppend(done + [x], more);
      } else {
        assert more != [];
        assert !PskLast(xs);
      }
    }
  }

  lemma RulesStep(done: seq<RawExt>, x: RawExt)
    requires Distinct(done) && forall y <- done :: y.id != x.id && y.id != EXT_PRE_SHARED_KEY
    ensures Distinct(done + [x]) && PskLast(done + [x])
  {
  }

  /** The next extension with what is before and after it. */
  lemma NextRawStands(block: bytes, done: seq<RawExt>, rest: bytes)
    requires block == Flat(EncRaw, done) + rest && DecRaw(rest).Got?
    ensures var x, rest' := DecRaw(rest).value, DecRaw(rest).rest;
      ValidRaw(x) && block == Flat(EncRaw, done + [x]) + rest'
  {
    InverseRaw();
    assert TakesOnly(EncRaw, ValidRaw, DecRaw, rest);
    FlatSnoc(EncRaw, done, DecRaw(rest).value);
  }

  lemma CutStep(block: bytes, done: seq<RawExt>, rest: bytes)
    requires CutSoFar(block, done, rest) && rest != [] && DecRaw(rest).Got?
    requires forall y <- done :: y.id != DecRaw(rest).value.id
    requires DecRaw(rest).value.id == EXT_PRE_SHARED_KEY ==> DecRaw(rest).rest == []
    ensures CutSoFar(block, done + [DecRaw(rest).value], DecRaw(rest).rest)
  {
    RulesStep(done, DecRaw(rest).value);
    NextRawStands(block, done, rest);
    AfterStep(done, DecRaw, rest);
  }

  lemma MeansStep(done: seq<RawExt>, h: Head, m: Hello, x: RawExt)
    requires MeansSoFar(done, h, m) && DecodeExt(x).Some?
    ensures MeansSoFar(done + [x], h, Apply(m, DecodeExt(x).value))
  {
    var e := DecodeExt(x).value;
    assert [x][1..] == [] && [e] + [] == [e];
    assert DecodeAll([x]) == Some([e]);
    DecodeAllAppend(done, [x]);
    ApplyAllAppend(Base(h), DecodeAll(done).value, [e]);
  }

  /** An SNI extension right after whole extensions. */
  lemma SniHere(block: bytes, done: seq<RawExt>, rest: bytes, h: Head, m: Hello, name: bytes)
    requires BlockSoFar(block, done, rest, h, m) && DecRaw(rest).Got?
    requires DecRaw(rest).value.id == EXT_SERVER_NAME && NameIn(DecRaw(rest).value.body, name)
    ensures SniIn(block, name)
  {
    InverseRaw();
    assert TakesOnly(EncRaw, ValidRaw, DecRaw, rest);
    var x, after := DecRaw(rest).value, DecRaw(rest).rest;
    assert SniAt(block, name, done, x.body, after);
  }

  /** One extension id and body. */
  method ReadExtension(b: bytes) returns (ok: bool, extension: u16, extData: bytes, rest: bytes)
    ensures ok <==> DecRaw(b).Got?
    ensures ok ==> DecRaw(b) == Got(RawExt(extension, extData), rest) && |rest| < |b|
  {
    var id := ReadU16(b);
    if id.Stuck? {
      return false, 0, [], b;
    }
    var body := ReadPrefixed16(id.rest);
    if body.Stuck? {
      return false, id.value, [], b;
    }
    return true, id.value, body.value, body.rest;
  }

  /** The effect of reading the extension `x` on the message `m`, other than on the server name. */
  ghost predicate Filled(m: Hello, m': Hello, x: RawExt, ok: bool) {
    && (ok <==> DecodeExt(x).Some?)
    && (ok ==> m' == Apply(m, DecodeExt(x).value))
    && m'.serverName == m.serverName
  }

  /** What is accepted, in plain bytes. */
  lemma AcceptedBytes(data: bytes)
    ensures ParseHello(data).Some? <==> exists m :: ClientHelloBytes.Reads(data, m)
    ensures ParseHello(data).Some? ==> ClientHelloBytes.Reads(data, ParseHello(data).value)
    ensures forall header, random, name :: ClientHelloDisplays.NamesHost(data, header, random, name) ==>
      ParseHello(data).Some? && ParseHello(data).value.serverName == name
  {
    forall m ensures ParseHello(data) == Some(m) <==> ClientHelloBytes.Reads(data, m) {
      ClientHelloBytes.ReadsExactly(data, m);
    }
    forall header, random, name | ClientHelloDisplays.NamesHost(data, header, random, name)
      ensures ParseHello(data).Some? && ParseHello(data).value.serverName == name
    {
      ClientHelloDisplays.ReadsServerName(data, header, random, name);
    }
  }

  class ClientHelloMsg {
    /** The fields of the message, as the record they form. */
    var msg: Hello

    constructor ()
      ensures msg == ZERO_HELLO
    {
      msg := ZERO_HELLO;
    }

    method FillServerName(extData: bytes) returns (ok: bool)
      requires msg.serverName == []
      modifies this
      ensures ok <==> DecodeExt(RawExt(EXT_SERVER_NAME, extData)).Some?
      ensures ok ==> msg == Apply(old(msg), DecodeExt(RawExt(EXT_SERVER_NAME, extData)).value)
      ensures msg.serverName == [] || NameIn(extData, msg.serverName)
    {
      var serverName;
      ok, serverName := ReadServerName(extData);
      msg := msg.(serverName := serverName);
    }

    method AddNumbers(extension: u16, ns: seq<u16>)
      requires IsU16List(extension)
      modifies this
      ensures msg == Apply(old(msg), U16Ext(extension, ns))
    {
      if extension == EXT_SUPPORTED_CURVES {
        msg := msg.(supportedCurves := msg.supportedCurves + ns);
      } else if extension == EXT_SIGNATURE_ALGORITHMS {
        msg := msg.(supportedSignatureAlgorithms := msg.supportedSignatureAlgorithms + ns);
      } else if extension == EXT_SIGNATURE_ALGORITHMS_CERT {
        msg := msg.(supportedSignatureAlgorithmsCert := msg.supportedSignatureAlgorithmsCert + ns);
      } else {
        msg := msg.(supportedVersions := msg.supportedVersions + ns);
      }
    }

    method FillNumbers(extension: u16, extData: bytes) returns (ok: bool)
      requires IsU16List(extension)
      modifies this
      ensures Filled(old(msg), msg, RawExt(extension, extData), ok)
    {
      var packed := if extension == EXT_SUPPORTED_VERSIONS then ReadPrefixed8(extData) else ReadPrefixed16(extData);
      if packed.Stuck? || packed.value == [] {
        return false;
      }
      var read, ns := ReadU16s(packed.value);
      AddNumbers(extension, ns);
      return read && packed.rest == [];
    }

    method FillStatusRequest(extData: bytes) returns (ok: bool)
      modifies this
      ensures Filled(old(msg), msg, RawExt(EXT_STATUS_REQUEST, extData), ok)
    {
      var statusType := ReadU8(extData);
      if statusType.Stuck? {
        return false;
      }
      var responders := ReadPrefixed16(statusType.rest);
      if responders.Stuck? {
        return false;
      }
      var requestExts := ReadPrefixed16(responders.rest);
      if requestExts.Stuck? {
        return false;
      }
      msg := msg.(ocspStapling := statusType.value == STATUS_TYPE_OCSP);
      return requestExts.rest == [];
    }

    method FillString(extension: u16, extData: bytes) returns (ok: bool)
      requires IsShort(extension) && extension != EXT_SUPPORTED_VERSIONS
      modifies this
      ensures Filled(old(msg), msg, RawExt(extension, extData), ok)
    {
      var b := ReadPrefixed8(extData);
      if b.Stuck? {
        return false;
      }
      if extension == EXT_SUPPORTED_POINTS {
        msg := msg.(supportedPoints := b.value);
        if b.value == [] {
          return false;
        }
      } else if extension == EXT_RENEGOTIATION_INFO {
        msg := msg.(secureRenegotiation := b.value, secureRenegotiationSupported := true);
      } else {
        msg := msg.(pskModes := b.value);
      }
      return b.rest == [];
    }

    method FillCookie(extData: bytes) returns (ok: bool)
      modifies this
      ensures Filled(old(msg), msg, RawExt(EXT_COOKIE, extData), ok)
    {
      var b := ReadPrefixed16(extData);
      if b.Stuck? {
        return false;
      }
      msg := msg.(cookie := b.value);
      return b.value != [] && b.rest == [];
    }

    method FillAlpn(extData: bytes) returns (ok: bool)
      modifies this
      ensures Filled(old(msg), msg, RawExt(EXT_ALPN, extData), ok)
    {
      var protoList := ReadPrefixed16(extData);
      if protoList.Stuck? || protoList.value == [] {
        return false;
      }
      var read, protos := ReadStrings(protoList.value);
      msg := msg.(alpnProtocols := msg.alpnProtocols + protos);
      return read && protoList.rest == [];
    }

    method FillKeyShare(extData: bytes) returns (ok: bool)
      modifies this
      ensures Filled(old(msg), msg, RawExt(EXT_KEY_SHARE, extData), ok)
    {
      var clientShares := ReadPrefixed16(extData);
      if clientShares.Stuck? {
        return false;
      }
      var read, shares := ReadKeyShares(clientShares.value);
      msg := msg.(keyShares := msg.keyShares + shares);
      return read && clientShares.rest == [];
    }

    method FillPreSharedKey(extData: bytes) returns (ok: bool)
      modifies this
      ensures Filled(old(msg), msg, RawExt(EXT_PRE_SHARED_KEY, extData), ok)
    {
      var ids, bs;
      ok, ids, bs := ReadPreSharedKey(extData);
      msg := msg.(pskIdentities := msg.pskIdentities + ids, pskBinders := msg.pskBinders + bs);
    }

    method FillFlag(extension: u16, extData: bytes) returns (ok: bool)
      requires IsFlag(extension)
      modifies this
      ensures Filled(old(msg), msg, RawExt(extension, extData), ok)
    {
      if extension == EXT_EXTENDED_MASTER_SECRET {
        msg := msg.(extendedMasterSecret := true);
      } else if extension == EXT_SCT {
        msg := msg.(scts := true);
      } else {
        msg := msg.(earlyData := true);
      }
      return extData == [];
    }

    /** Extensions taken as they are, and those the code does not open. */
    method FillPlain(extension: u16, extData: bytes) returns (ok: bool)
      requires ShapeOf(extension) == Plain
      modifies this
      ensures Filled(old(msg), msg, RawExt(extension, extData), ok)
    {
      if extension == EXT_SESSION_TICKET {
        msg := msg.(ticketSupported := true, sessionTicket := extData);
      } else if extension == EXT_QUIC_TRANSPORT_PARAMETERS {
        msg := msg.(quicTransportParameters := extData);
      }
      return true;
    }

    /** One extension; `last` says that nothing follows it. */
    method FillExtension(extension: u16, extData: bytes, last: bool) returns (ok: bool)
      requires extension == EXT_SERVER_NAME ==> msg.serverName == []
      modifies this
      ensures ok <==> DecodeExt(RawExt(extension, extData)).Some? && (extension == EXT_PRE_SHARED_KEY ==> last)
      ensures ok ==> msg == Apply(old(msg), DecodeExt(RawExt(extension, extData)).value)
      ensures extension != EXT_SERVER_NAME ==> msg.serverName == old(msg.serverName)
      ensures extension == EXT_SERVER_NAME ==> msg.serverName == [] || NameIn(extData, msg.serverName)
    {
      if extension == EXT_SERVER_NAME {
        ok := FillServerName(extData);
      } else if extension == EXT_STATUS_REQUEST {
        ok := FillStatusRequest(extData);
      } else if IsU16List(extension) {
        ok := FillNumbers(extension, extData);
      } else if extension == EXT_ALPN {
        ok := FillAlpn(extData);
      } else if extension == EXT_COOKIE {
        ok := FillCookie(extData);
      } else if extension == EXT_KEY_SHARE {
        ok := FillKeyShare(extData);
      } else if IsShort(extension) {
        ok := FillString(extension, extData);
      } else if IsFlag(extension) {
        ok := FillFlag(extension, extData);
      } else if extension == EXT_PRE_SHARED_KEY {
        if !last {
          return false;
        }
        ok := FillPreSharedKey(extData);
      } else {
        ok := FillPlain(extension, extData);
      }
    }

    /** The extensions block, after the part before it has been read as `h`. */
    method FillBlock(block: bytes, ghost h: Head) returns (ok: bool)
      requires msg == Base(h)
      modifies this
      ensures ok <==> ReadBlock(block).Some?
      ensures ok ==> msg == ApplyAll(Base(h), ReadBlock(block).value)
      ensures msg.serverName == [] || SniIn(block, msg.serverName)
    {
      var extensions := block;
      var seenExts: set<u16> := {};
      ghost var done: seq<RawExt> := [];
      BlockBegins(block, h);
      while extensions != []
        invariant BlockSoFar(block, done, extensions, h, msg)
        invariant forall id: u16 :: id in seenExts <==> exists x <- done :: x.id == id
        invariant EXT_SERVER_NAME !in seenExts ==> msg.serverName == []
        invariant msg.serverName == [] || SniIn(block, msg.serverName)
        decreases |extensions|
      {
        var read, extension, extData, rest := ReadExtension(extensions);
        if !read {
          BlockStuck(block, done, extensions, h, msg);
          return false;
        }
        ghost var x, before := RawExt(extension, extData), msg;
        if extension in seenExts {
          BlockFails(block, done, extensions, h, msg);
          return false;
        }
        ok := FillExtension(extension, extData, rest == []);
        if extension == EXT_SERVER_NAME && msg.serverName != [] {
          SniHere(block, done, extensions, h, before, msg.serverName);
        }
        if !ok {
          BlockFails(block, done, extensions, h, before);
          return false;
        }
        CutStep(block, done, extensions);
        MeansStep(done, h, before, x);
        seenExts := seenExts + {extension};
        done, extensions := done + [x], rest;
      }
      BlockEnds(block, done, h, msg);
      return true;
    }

    /** Version, random bytes and session id behind the skipped header; each field is set as it is read. */
    method FillFront(data: bytes) returns (ok: bool, front: Head, rest: bytes)
      requires msg == ZERO_HELLO
      modifies this
      ensures ok <==> ReadFront(data).Got?
      ensures ok ==> ReadFront(data) == Got(front, rest)
      ensures ok ==> msg == ZERO_HELLO.(vers := front.vers, random := front.random, sessionId := front.session)
      ensures msg.serverName == []
    {
      front := Head([], 0, [], [], [], []);
      var header := ReadBytes(data, 4);
      if header.Stuck? {
        return false, front, data;
      }
      var vers := ReadU16(header.rest);
      if vers.Stuck? {
        return false, front, data;
      }
      msg := msg.(vers := vers.value);
      var random := ReadBytes(vers.rest, 32);
      if random.Stuck? {
        return false, front, data;
      }
      msg := msg.(random := random.value);
      var session := ReadPrefixed8(random.rest);
      if session.Stuck? {
        return false, front, data;
      }
      msg := msg.(sessionId := session.value);
      return true, Head(header.value, vers.value, random.value, session.value, [], []), session.rest;
    }

    /** Everything before the extensions block. */
    method FillHead(data: bytes) returns (ok: bool, h: Head, block: bytes)
      modifies this
      ensures ok <==> ReadHead(data).Some?
      ensures ok ==> ReadHead(data) == Some((h, block)) && msg == Base(h)
      ensures msg.serverName == []
    {
      msg := ZERO_HELLO;
      var rest;
      ok, h, rest := FillFront(data);
      if !ok {
        return false, h, [];
      }
      var suites, renegotiation, compression;
      ok, suites, renegotiation, compression, block := ReadTail(rest);
      msg := msg.(
        cipherSuites := suites, secureRenegotiationSupported := renegotiation, compressionMethods := compression);
      h := h.(suites := suites, compression := compression);
    }

    method Unmarshal(data: bytes) returns (ok: bool)
      modifies this
      ensures ok <==> ParseHello(data).Some?
      ensures ok ==> msg == ParseHello(data).value
      ensures msg.serverName == [] || SniSlice(data, msg.serverName)
    {
      var h, extensions;
      ok, h, extensions := FillHead(data);
      if ok {
        ok := FillBlock(extensions, h);
      }
    }

    /** The whole input, record header included. */
    method UnmarshalByByte(buf: bytes) returns (r: Outcome)
      modifies this
      ensures r == Panicked <==> 1 <= |buf| < 5 && buf[0] == 0x16
      ensures r == Accepted <==> |buf| >= 5 && buf[0] == 0x16 && ParseHello(buf[5..]).Some?
      ensures r == Accepted ==> msg == ParseHello(buf[5..]).value
      ensures buf == [] || buf[0] != 0x16 || |buf| < 5 ==> msg == old(msg)
      ensures |buf| >= 5 && buf[0] == 0x16 ==> msg.serverName == [] || SniSlice(buf[5..], msg.serverName)
      ensures r == Accepted <==> |buf| >= 5 && buf[0] == 0x16 && exists m :: ClientHelloBytes.Reads(buf[5..], m)
      ensures r == Accepted ==> ClientHelloBytes.Reads(buf[5..], msg)
      ensures forall header, random, name ::
        |buf| >= 5 && buf[0] == 0x16 && ClientHelloDisplays.NamesHost(buf[5..], header, random, name) ==>
          r == Accepted && msg.serverName == name
    {
      if |buf| == 0 {
        return Rejected;
      }
      if buf[0] != 0x16 {
        return Rejected;
      }
      if |buf| < 5 {
        return Panicked;
      }
      AcceptedBytes(buf[5..]);
      var ok := Unmarshal(buf[5..]);
      return if ok then Accepted else Rejected;
    }
  }
}
