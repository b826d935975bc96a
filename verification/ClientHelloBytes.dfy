/**
 The ClientHello in plain bytes: the numbers, lengths and values as they stand on the wire, and the
 fields they stand for. Nothing here is taken from the reader; the theorems say that the reader of
 server/sniffing/tls/client_hello.go accepts exactly these bytes and yields exactly these fields.
 */
module ClientHelloBytes {
  import opened Prelude
  import opened Bytes
  import opened Codec
  import opened ClientHelloGrammar
  import opened ClientHelloMessage

  // ----- what stands on the wire

  function Two(n: nat): bytes { [n / 256 % 256, n % 256] }

  function Four(n: u32): bytes { [n / 16777216, n / 65536 % 256, n / 256 % 256, n % 256] }

  function Behind1(b: bytes): bytes { [|b| % 256] + b }

  function Behind2(b: bytes): bytes { Two(|b|) + b }

  function NumberList(ns: seq<u16>): bytes {
    if ns == [] then [] else Two(ns[0]) + NumberList(ns[1..])
  }

  function StringList(ps: seq<bytes>): bytes {
    if ps == [] then [] else Behind1(ps[0]) + StringList(ps[1..])
  }

  function NameList(ns: seq<Name>): bytes {
    if ns == [] then [] else [ns[0].kind] + Behind2(ns[0].name) + NameList(ns[1..])
  }

  function ShareList(ks: seq<KeyShare>): bytes {
    if ks == [] then [] else Two(ks[0].group) + Behind2(ks[0].data) + ShareList(ks[1..])
  }

  function IdentityList(ps: seq<PskIdentity>): bytes {
    if ps == [] then [] else Behind2(ps[0].identity) + Four(ps[0].ticketAge) + IdentityList(ps[1..])
  }

  function Number(e: Ext): u16 {
    match e
    case ServerName(_) => 0
    case StatusRequest(_, _, _) => 5
    case SupportedCurves(_) => 10
    case SupportedPoints(_) => 11
    case SignatureAlgorithms(_) => 13
    case Alpn(_) => 16
    case Sct => 18
    case ExtendedMasterSecret => 23
    case SessionTicket(_) => 35
    case PreSharedKey(_, _) => 41
    case EarlyData => 42
    case SupportedVersions(_) => 43
    case Cookie(_) => 44
    case PskModes(_) => 45
    case SignatureAlgorithmsCert(_) => 50
    case KeyShares(_) => 51
    case QuicTransportParameters(_) => 57
    case RenegotiationInfo(_) => 0xff01
    case Unknown(id, _) => id
  }

  function Content(e: Ext): bytes {
    match e
    case ServerName(names) => Behind2(NameList(names))
    case StatusRequest(kind, responders, requestExts) => [kind] + Behind2(responders) + Behind2(requestExts)
    case SupportedCurves(ns) => Behind2(NumberList(ns))
    case SupportedPoints(points) => Behind1(points)
    case SignatureAlgorithms(ns) => Behind2(NumberList(ns))
    case Alpn(protos) => Behind2(StringList(protos))
    case Sct => []
    case ExtendedMasterSecret => []
    case SessionTicket(ticket) => ticket
    case PreSharedKey(identities, binders) => Behind2(IdentityList(identities)) + Behind2(StringList(binders))
    case EarlyData => []
    case SupportedVersions(ns) => Behind1(NumberList(ns))
    case Cookie(cookie) => Behind2(cookie)
    case PskModes(modes) => Behind1(modes)
    case SignatureAlgorithmsCert(ns) => Behind2(NumberList(ns))
    case KeyShares(shares) => Behind2(ShareList(shares))
    case QuicTransportParameters(params) => params
    case RenegotiationInfo(info) => Behind1(info)
    case Unknown(_, body) => body
  }

  function Extension(e: Ext): bytes { Two(Number(e)) + Behind2(Content(e)) }

  function Extensions(es: seq<Ext>): bytes {
    if es == [] then [] else Extension(es[0]) + Extensions(es[1..])
  }

  /** A whole message, behind the five bytes of the record header. */
  function Message(w: Wire): bytes {
    var h := w.head;
    h.header + Two(h.vers) + h.random + Behind1(h.session)
    + Behind2(NumberList(h.suites)) + Behind1(h.compression) + Behind2(Extensions(w.exts))
  }

  // ----- what the code asks of it

  predicate Opened(id: u16) {
    || id == 0 || id == 5 || id == 10 || id == 11 || id == 13 || id == 16 || id == 18 || id == 23 || id == 35
    || id == 41 || id == 42 || id == 43 || id == 44 || id == 45 || id == 50 || id == 51 || id == 57 || id == 0xff01
  }

  /** One host name at most, and it does not end in a dot. */
  predicate NamesAllowed(names: seq<Name>) {
    && names != [] && (forall n <- names :: n.name != [])
    && (forall n <- names :: n.kind == 0 && n.name != [] ==> n.name[|n.name| - 1] != '.' as int)
    && (forall i, j :: 0 <= i < j < |names| ==> names[i].kind != 0 || names[j].kind != 0)
  }

  predicate StringsAllowed(ps: seq<bytes>) {
    ps != [] && forall p <- ps :: 1 <= |p| <= 255
  }

  predicate ContentAllowed(e: Ext) {
    match e
    case ServerName(names) => NamesAllowed(names)
    case SupportedCurves(ns) => ns != []
    case SupportedPoints(points) => 1 <= |points| <= 255
    case SignatureAlgorithms(ns) => ns != []
    case Alpn(protos) => StringsAllowed(protos)
    case PreSharedKey(identities, binders) =>
      identities != [] && (forall p <- identities :: p.identity != []) && StringsAllowed(binders)
    case SupportedVersions(ns) => 1 <= |ns| <= 127
    case Cookie(cookie) => cookie != []
    case PskModes(modes) => |modes| <= 255
    case SignatureAlgorithmsCert(ns) => ns != []
    case KeyShares(shares) => forall k <- shares :: k.data != []
    case RenegotiationInfo(info) => |info| <= 255
    case Unknown(id, _) => !Opened(id)
    case _ => true
  }

  predicate Allowed(w: Wire) {
    && |w.head.header| == 4 && |w.head.random| == 32 && |w.head.session| <= 255 && |w.head.compression| <= 255
    && |w.head.suites| <= 32767
    && (forall e <- w.exts :: ContentAllowed(e))
    && (forall i, j :: 0 <= i < j < |w.exts| ==> Number(w.exts[i]) != Number(w.exts[j]))
    && (forall i :: 0 <= i < |w.exts| - 1 ==> !w.exts[i].PreSharedKey?)
    && |Extensions(w.exts)| <= 65535
  }

  // ----- the fields it stands for

  /** The extension with this number, if there is one. */
  function Find(es: seq<Ext>, id: u16): Option<Ext> {
    if es == [] then None
    else if Number(es[|es| - 1]) == id then Some(es[|es| - 1])
    else Find(es[..|es| - 1], id)
  }

  /** The name of kind 0, of which there is at most one. */
  function Host(names: seq<Name>): bytes {
    if names == [] then []
    else if names[|names| - 1].kind == 0 then names[|names| - 1].name
    else Host(names[..|names| - 1])
  }

  function HostIn(es: seq<Ext>): bytes {
    match Find(es, 0) case Some(ServerName(names)) => Host(names) case _ => []
  }

  function StapledIn(es: seq<Ext>): bool {
    match Find(es, 5) case Some(StatusRequest(kind, _, _)) => kind == 1 case _ => false
  }

  function CurvesIn(es: seq<Ext>): seq<u16> {
    match Find(es, 10) case Some(SupportedCurves(ns)) => ns case _ => []
  }

  function PointsIn(es: seq<Ext>): bytes {
    match Find(es, 11) case Some(SupportedPoints(points)) => points case _ => []
  }

  function TicketIn(es: seq<Ext>): bytes {
    match Find(es, 35) case Some(SessionTicket(ticket)) => ticket case _ => []
  }

  function AlgorithmsIn(es: seq<Ext>): seq<u16> {
    match Find(es, 13) case Some(SignatureAlgorithms(ns)) => ns case _ => []
  }

  function CertAlgorithmsIn(es: seq<Ext>): seq<u16> {
    match Find(es, 50) case Some(SignatureAlgorithmsCert(ns)) => ns case _ => []
  }

  function InfoIn(es: seq<Ext>): bytes {
    match Find(es, 0xff01) case Some(RenegotiationInfo(info)) => info case _ => []
  }

  function ProtosIn(es: seq<Ext>): seq<bytes> {
    match Find(es, 16) case Some(Alpn(protos)) => protos case _ => []
  }

  function VersionsIn(es: seq<Ext>): seq<u16> {
    match Find(es, 43) case Some(SupportedVersions(ns)) => ns case _ => []
  }

  function CookieIn(es: seq<Ext>): bytes {
    match Find(es, 44) case Some(Cookie(cookie)) => cookie case _ => []
  }

  function SharesIn(es: seq<Ext>): seq<KeyShare> {
    match Find(es, 51) case Some(KeyShares(shares)) => shares case _ => []
  }

  function ModesIn(es: seq<Ext>): bytes {
    match Find(es, 45) case Some(PskModes(modes)) => modes case _ => []
  }

  function IdentitiesIn(es: seq<Ext>): seq<PskIdentity> {
    match Find(es, 41) case Some(PreSharedKey(identities, _)) => identities case _ => []
  }

  function BindersIn(es: seq<Ext>): seq<bytes> {
    match Find(es, 41) case Some(PreSharedKey(_, binders)) => binders case _ => []
  }

  function ParamsIn(es: seq<Ext>): bytes {
    match Find(es, 57) case Some(QuicTransportParameters(params)) => params case _ => []
  }

  function Fields(h: Head, es: seq<Ext>): Hello {
    Hello(
      h.vers, h.random, h.session, h.suites, h.compression,
      HostIn(es), StapledIn(es), CurvesIn(es), PointsIn(es), Find(es, 35).Some?, TicketIn(es),
      AlgorithmsIn(es), CertAlgorithmsIn(es), Find(es, 0xff01).Some? || 0x00ff in h.suites, InfoIn(es),
      Find(es, 23).Some?, ProtosIn(es), Find(es, 18).Some?, VersionsIn(es), CookieIn(es), SharesIn(es),
      Find(es, 42).Some?, ModesIn(es), IdentitiesIn(es), BindersIn(es), ParamsIn(es), [])
  }

  // ----- the reader's pieces are these pieces

  lemma Halve(n: nat)
    ensures n % 0x1_0000 / 0x100 == n / 256 % 256 && n % 0x1_0000 % 0x100 == n % 256
  {
    var q, r := n / 0x1_0000, n % 0x1_0000;
    assert n == 256 * (256 * q + r / 256) + r % 256;
  }

  lemma Prefixes(b: bytes)
    ensures Prefixed8(b) == Behind1(b) && Prefixed16(b) == Behind2(b)
  {
    Halve(|b|);
  }

  lemma Words(n: u16)
    ensures Be16(n) == Two(n)
  {
  }

  lemma DoubleWords(n: u32)
    ensures Be32(n) == Four(n)
  {
    var hi, lo := n / 0x1_0000, n % 0x1_0000;
    Halve(n);
    Halve(hi);
    assert hi / 256 == n / 16777216 && hi % 256 == n / 65536 % 256;
  }

  lemma {:induction false} NumbersFlat(ns: seq<u16>)
    ensures Flat(EncU16, ns) == NumberList(ns) && |NumberList(ns)| == 2 * |ns|
  {
    if ns != [] {
      Words(ns[0]);
      NumbersFlat(ns[1..]);
    }
  }

  lemma {:induction false} StringsFlat(ps: seq<bytes>)
    ensures Flat(EncProto, ps) == StringList(ps)
  {
    if ps != [] {
      Prefixes(ps[0]);
      StringsFlat(ps[1..]);
    }
  }

  lemma {:induction false} NamesFlat(ns: seq<Name>)
    ensures Flat(EncName, ns) == NameList(ns)
  {
    if ns != [] {
      Prefixes(ns[0].name);
      NamesFlat(ns[1..]);
    }
  }

  lemma {:induction false} SharesFlat(ks: seq<KeyShare>)
    ensures Flat(EncKeyShare, ks) == ShareList(ks)
  {
    if ks != [] {
      Words(ks[0].group);
      Prefixes(ks[0].data);
      SharesFlat(ks[1..]);
    }
  }

  lemma {:induction false} IdentitiesFlat(ps: seq<PskIdentity>)
    ensures Flat(EncIdentity, ps) == IdentityList(ps)
  {
    if ps != [] {
      Prefixes(ps[0].identity);
      DoubleWords(ps[0].ticketAge);
      IdentitiesFlat(ps[1..]);
    }
  }

  lemma Numbers(e: Ext)
    ensures IdOf(e) == Number(e)
    ensures e.Unknown? ==> (Known(e.id) <==> Opened(e.id))
  {
  }

  /** An item is no longer than the list it stands in. */
  lemma {:induction false} ItemFits<T>(enc: T -> bytes, ts: seq<T>, t: T)
    requires t in ts
    ensures |enc(t)| <= |Flat(enc, ts)|
  {
    if t != ts[0] {
      ItemFits(enc, ts[1..], t);
    }
  }

  lemma ContentOfLists(e: Ext)
    requires e.ServerName? || e.Alpn? || e.KeyShares? || e.PreSharedKey?
    ensures EncodeExt(e) == RawExt(Number(e), Content(e))
  {
    match e
    case ServerName(names) => NamesFlat(names); Prefixes(NameList(names));
    case Alpn(protos) => StringsFlat(protos); Prefixes(StringList(protos));
    case KeyShares(shares) => SharesFlat(shares); Prefixes(ShareList(shares));
    case PreSharedKey(identities, binders) =>
      IdentitiesFlat(identities);
      StringsFlat(binders);
      Prefixes(IdentityList(identities));
      Prefixes(StringList(binders));
  }

  lemma ContentOfNumbers(e: Ext, ns: seq<u16>)
    requires || e == SupportedCurves(ns) || e == SignatureAlgorithms(ns) || e == SignatureAlgorithmsCert(ns)
             || e == SupportedVersions(ns)
    ensures EncodeExt(e) == RawExt(Number(e), Content(e))
  {
    NumbersFlat(ns);
    Prefixes(NumberList(ns));
  }

  lemma ContentOfStatus(kind: byte, responders: bytes, requestExts: bytes)
    ensures var e := StatusRequest(kind, responders, requestExts); EncodeExt(e) == RawExt(Number(e), Content(e))
  {
    Prefixes(responders);
    Prefixes(requestExts);
  }

  lemma ContentOfStrings(e: Ext, b: bytes)
    requires e == SupportedPoints(b) || e == RenegotiationInfo(b) || e == PskModes(b) || e == Cookie(b)
    ensures EncodeExt(e) == RawExt(Number(e), Content(e))
  {
    Prefixes(b);
  }

  lemma ContentOfPlain(e: Ext)
    requires || e.Sct? || e.ExtendedMasterSecret? || e.EarlyData? || e.SessionTicket? || e.QuicTransportParameters?
             || (e.Unknown? && !Opened(e.id))
    ensures EncodeExt(e) == RawExt(Number(e), Content(e))
  {
  }

  /** The extension as the grammar packs it. */
  lemma ContentIsBody(e: Ext)
    requires e.Unknown? ==> !Opened(e.id)
    ensures EncodeExt(e) == RawExt(Number(e), Content(e))
  {
    match e
    case StatusRequest(kind, responders, requestExts) => ContentOfStatus(kind, responders, requestExts);
    case SupportedCurves(ns) => ContentOfNumbers(e, ns);
    case SignatureAlgorithms(ns) => ContentOfNumbers(e, ns);
    case SignatureAlgorithmsCert(ns) => ContentOfNumbers(e, ns);
    case SupportedVersions(ns) => ContentOfNumbers(e, ns);
    case SupportedPoints(b) => ContentOfStrings(e, b);
    case RenegotiationInfo(b) => ContentOfStrings(e, b);
    case PskModes(b) => ContentOfStrings(e, b);
    case Cookie(b) => ContentOfStrings(e, b);
    case ServerName(_) => ContentOfLists(e);
    case Alpn(_) => ContentOfLists(e);
    case KeyShares(_) => ContentOfLists(e);
    case PreSharedKey(_, _) => ContentOfLists(e);
    case _ => ContentOfPlain(e);
  }

  lemma NamesValidIff(names: seq<Name>)
    ensures ValidExt(ServerName(names)) <==> NamesAllowed(names) && |Content(ServerName(names))| <= 65535
  {
    NamesFlat(names);
    ContentOfLists(ServerName(names));
    forall n <- names ensures |n.name| <= |NameList(names)| { ItemFits(EncName, names, n); }
  }

  lemma SharesValidIff(shares: seq<KeyShare>)
    ensures ValidExt(KeyShares(shares)) <==>
            ContentAllowed(KeyShares(shares)) && |Content(KeyShares(shares))| <= 65535
  {
    SharesFlat(shares);
    ContentOfLists(KeyShares(shares));
    forall k <- shares ensures |k.data| <= |ShareList(shares)| { ItemFits(EncKeyShare, shares, k); }
  }

  lemma PskItemsFit(identities: seq<PskIdentity>, binders: seq<bytes>)
    ensures |Content(PreSharedKey(identities, binders))| == |IdentityList(identities)| + |StringList(binders)| + 4
    ensures forall p <- identities :: |p.identity| <= |IdentityList(identities)|
  {
    IdentitiesFlat(identities);
    forall p <- identities ensures |p.identity| <= |IdentityList(identities)| { ItemFits(EncIdentity, identities, p); }
  }

  lemma PskValidIff(identities: seq<PskIdentity>, binders: seq<bytes>)
    ensures var e := PreSharedKey(identities, binders); ValidExt(e) <==> ContentAllowed(e) && |Content(e)| <= 65535
  {
    IdentitiesFlat(identities);
    StringsFlat(binders);
    ContentOfLists(PreSharedKey(identities, binders));
    PskItemsFit(identities, binders);
  }

  lemma NumbersValidIff(e: Ext, ns: seq<u16>)
    requires || e == SupportedCurves(ns) || e == SignatureAlgorithms(ns) || e == SignatureAlgorithmsCert(ns)
             || e == SupportedVersions(ns)
    ensures ValidExt(e) <==> ContentAllowed(e) && |Content(e)| <= 65535
  {
    NumbersFlat(ns);
    ContentOfNumbers(e, ns);
  }

  lemma StringsValidIff(e: Ext, b: bytes)
    requires e == SupportedPoints(b) || e == RenegotiationInfo(b) || e == PskModes(b) || e == Cookie(b)
    ensures ValidExt(e) <==> ContentAllowed(e) && |Content(e)| <= 65535
  {
    ContentOfStrings(e, b);
  }

  lemma PlainValidIff(e: Ext)
    requires e.Sct? || e.ExtendedMasterSecret? || e.EarlyData? || e.SessionTicket? || e.QuicTransportParameters?
             || e.Unknown? || e.StatusRequest? || e.Alpn?
    ensures ValidExt(e) <==> ContentAllowed(e) && |Content(e)| <= 65535
  {
    Numbers(e);
    if e.Alpn? {
      StringsFlat(e.protos);
    }
    if e.Unknown? ==> !Opened(e.id) {
      ContentIsBody(e);
    }
  }

  /** The rules of the grammar are the code's rules. */
  lemma ValidIff(e: Ext)
    ensures ValidExt(e) <==> ContentAllowed(e) && |Content(e)| <= 65535
  {
    match e
    case ServerName(names) => NamesValidIff(names);
    case KeyShares(shares) => SharesValidIff(shares);
    case PreSharedKey(identities, binders) => PskValidIff(identities, binders);
    case SupportedCurves(ns) => NumbersValidIff(e, ns);
    case SignatureAlgorithms(ns) => NumbersValidIff(e, ns);
    case SignatureAlgorithmsCert(ns) => NumbersValidIff(e, ns);
    case SupportedVersions(ns) => NumbersValidIff(e, ns);
    case SupportedPoints(b) => StringsValidIff(e, b);
    case RenegotiationInfo(b) => StringsValidIff(e, b);
    case PskModes(b) => StringsValidIff(e, b);
    case Cookie(b) => StringsValidIff(e, b);
    case _ => PlainValidIff(e);
  }

  // ----- the whole message

  lemma ExtensionIsRaw(e: Ext)
    requires ContentAllowed(e)
    ensures EncRaw(EncodeExt(e)) == Extension(e) && |Content(e)| < |Extension(e)|
  {
    ContentIsBody(e);
    Words(Number(e));
    Prefixes(Content(e));
  }

  lemma {:induction false} ExtensionsFlat(es: seq<Ext>)
    requires forall e <- es :: ContentAllowed(e)
    ensures Flat(EncRaw, EncodeAll(es)) == Extensions(es)
    ensures forall e <- es :: |Content(e)| <= |Extensions(es)|
  {
    if es != [] {
      ExtensionIsRaw(es[0]);
      ExtensionsFlat(es[1..]);
      assert EncodeAll(es)[1..] == EncodeAll(es[1..]);
    }
  }

  lemma NumbersOfAll(es: seq<Ext>)
    requires forall e <- es :: ContentAllowed(e)
    ensures Distinct(EncodeAll(es)) <==> forall i, j :: 0 <= i < j < |es| ==> Number(es[i]) != Number(es[j])
    ensures PskLast(EncodeAll(es)) <==> forall i :: 0 <= i < |es| - 1 ==> !es[i].PreSharedKey?
  {
    forall i | 0 <= i < |es|
      ensures EncodeAll(es)[i].id == Number(es[i]) && (Number(es[i]) == 41 <==> es[i].PreSharedKey?)
    {
      Numbers(es[i]);
      assert ContentAllowed(es[i]);
    }
  }

  lemma Regroup(a: bytes, b: bytes, c: bytes, d: bytes, e: bytes, f: bytes, g: bytes)
    ensures (a + (b + (c + d))) + (e + (f + g)) == a + b + c + d + e + f + g
  {
  }

  lemma MessageIsSerialized(w: Wire)
    requires forall e <- w.exts :: ContentAllowed(e)
    ensures Serialize(w) == Message(w)
  {
    var h := w.head;
    ExtensionsFlat(w.exts);
    NumbersFlat(h.suites);
    Words(h.vers);
    Prefixes(h.session);
    Prefixes(NumberList(h.suites));
    Prefixes(h.compression);
    Prefixes(Extensions(w.exts));
    Regroup(h.header, Two(h.vers), h.random, Behind1(h.session), Behind2(NumberList(h.suites)),
            Behind1(h.compression), Behind2(Extensions(w.exts)));
  }

  lemma AllowedIffValid(w: Wire)
    ensures Allowed(w) <==> ValidWire(w)
  {
    NumbersFlat(w.head.suites);
    forall e <- w.exts ensures ValidExt(e) <==> ContentAllowed(e) && |Content(e)| <= 65535 { ValidIff(e); }
    if forall e <- w.exts :: ContentAllowed(e) {
      ExtensionsFlat(w.exts);
      NumbersOfAll(w.exts);
    }
  }

  lemma {:induction false} HostIsHostName(names: seq<Name>)
    requires OneHostName(names)
    ensures Host(names) == HostName(names)
    ensures forall n <- names :: n.kind == 0 ==> Host(names) == n.name
    ensures (forall n <- names :: n.kind != 0) ==> Host(names) == []
  {
    if names != [] {
      var most, last := names[..|names| - 1], names[|names| - 1];
      HostIsHostName(most);
      HostNameSnoc(most, last);
      assert most + [last] == names;
    }
  }

  lemma {:induction false} HostNameSnoc(names: seq<Name>, n: Name)
    requires forall x <- names :: x.kind == 0 ==> n.kind != 0
    ensures n.kind == 0 ==> HostName(names + [n]) == n.name
    ensures n.kind != 0 ==> HostName(names + [n]) == HostName(names)
  {
    if names != [] {
      assert (names + [n])[1..] == names[1..] + [n];
      HostNameSnoc(names[1..], n);
    }
  }

  lemma FindSnoc(es: seq<Ext>, e: Ext, id: u16)
    ensures Find(es + [e], id) == if Number(e) == id then Some(e) else Find(es, id)
  {
    assert (es + [e])[..|es|] == es;
  }

  lemma {:induction false} FindNone(es: seq<Ext>, id: u16)
    requires forall e <- es :: Number(e) != id
    ensures Find(es, id).None?
  {
    if es != [] {
      FindNone(es[..|es| - 1], id);
    }
  }

  /** The extension is new to the list, and allowed. */
  predicate New(es: seq<Ext>, e: Ext) {
    && Find(es, Number(e)).None? && (e.Unknown? ==> !Opened(e.id))
    && (e.ServerName? ==> OneHostName(e.names))
  }

  lemma HostStep(es: seq<Ext>, e: Ext)
    requires New(es, e)
    ensures HostIn(es + [e]) ==
            if e.ServerName? && HostName(e.names) != [] then HostName(e.names) else HostIn(es)
  {
    FindSnoc(es, e, 0);
    if e.ServerName? {
      HostIsHostName(e.names);
    }
  }

  lemma TextsStep(es: seq<Ext>, e: Ext)
    requires New(es, e)
    ensures PointsIn(es + [e]) == if e.SupportedPoints? then e.points else PointsIn(es)
    ensures TicketIn(es + [e]) == if e.SessionTicket? then e.ticket else TicketIn(es)
    ensures InfoIn(es + [e]) == if e.RenegotiationInfo? then e.info else InfoIn(es)
    ensures CookieIn(es + [e]) == if e.Cookie? then e.cookie else CookieIn(es)
    ensures ModesIn(es + [e]) == if e.PskModes? then e.modes else ModesIn(es)
    ensures ParamsIn(es + [e]) == if e.QuicTransportParameters? then e.params else ParamsIn(es)
  {
    FindSnoc(es, e, 11);
    FindSnoc(es, e, 35);
    FindSnoc(es, e, 0xff01);
    FindSnoc(es, e, 44);
    FindSnoc(es, e, 45);
    FindSnoc(es, e, 57);
  }

  lemma FlagsStep(es: seq<Ext>, e: Ext)
    requires New(es, e)
    ensures StapledIn(es + [e]) == if e.StatusRequest? then e.kind == 1 else StapledIn(es)
    ensures Find(es + [e], 35).Some? <==> e.SessionTicket? || Find(es, 35).Some?
    ensures Find(es + [e], 0xff01).Some? <==> e.RenegotiationInfo? || Find(es, 0xff01).Some?
    ensures Find(es + [e], 23).Some? <==> e.ExtendedMasterSecret? || Find(es, 23).Some?
    ensures Find(es + [e], 18).Some? <==> e.Sct? || Find(es, 18).Some?
    ensures Find(es + [e], 42).Some? <==> e.EarlyData? || Find(es, 42).Some?
  {
    FindSnoc(es, e, 5);
    FindSnoc(es, e, 35);
    FindSnoc(es, e, 0xff01);
    FindSnoc(es, e, 23);
    FindSnoc(es, e, 18);
    FindSnoc(es, e, 42);
  }

  lemma NumbersStep(es: seq<Ext>, e: Ext)
    requires New(es, e)
    ensures CurvesIn(es + [e]) == if e.SupportedCurves? then CurvesIn(es) + e.curves else CurvesIn(es)
    ensures VersionsIn(es + [e]) == if e.SupportedVersions? then VersionsIn(es) + e.versions else VersionsIn(es)
    ensures AlgorithmsIn(es + [e]) == if e.SignatureAlgorithms? then AlgorithmsIn(es) + e.algs else AlgorithmsIn(es)
    ensures CertAlgorithmsIn(es + [e]) ==
            if e.SignatureAlgorithmsCert? then CertAlgorithmsIn(es) + e.algsCert else CertAlgorithmsIn(es)
  {
    FindSnoc(es, e, 10);
    FindSnoc(es, e, 43);
    FindSnoc(es, e, 13);
    FindSnoc(es, e, 50);
  }

  lemma ListsStep(es: seq<Ext>, e: Ext)
    requires New(es, e)
    ensures ProtosIn(es + [e]) == if e.Alpn? then ProtosIn(es) + e.protos else ProtosIn(es)
    ensures SharesIn(es + [e]) == if e.KeyShares? then SharesIn(es) + e.shares else SharesIn(es)
    ensures IdentitiesIn(es + [e]) == if e.PreSharedKey? then IdentitiesIn(es) + e.identities else IdentitiesIn(es)
    ensures BindersIn(es + [e]) == if e.PreSharedKey? then BindersIn(es) + e.binders else BindersIn(es)
  {
    FindSnoc(es, e, 16);
    FindSnoc(es, e, 51);
    FindSnoc(es, e, 41);
  }

  /** One more extension sets its own fields. */
  lemma FieldsStep(h: Head, es: seq<Ext>, e: Ext)
    requires New(es, e)
    ensures Fields(h, es + [e]) == Apply(Fields(h, es), e)
  {
    HostStep(es, e);
    TextsStep(es, e);
    FlagsStep(es, e);
    NumbersStep(es, e);
    ListsStep(es, e);
  }

  lemma FieldsOfNothing(h: Head)
    ensures Fields(h, []) == Base(h)
  {
  }

  lemma MeaningStep(h: Head, es: seq<Ext>, e: Ext)
    requires ApplyAll(Base(h), es) == Fields(h, es) && ContentAllowed(e)
    requires forall x <- es :: Number(x) != Number(e)
    ensures ApplyAll(Base(h), es + [e]) == Fields(h, es + [e])
  {
    FindNone(es, Number(e));
    FieldsStep(h, es, e);
    assert [e][1..] == [];
    ApplyAllAppend(Base(h), es, [e]);
  }

  lemma {:induction false} FieldsAreMeaning(h: Head, es: seq<Ext>)
    requires forall e <- es :: ContentAllowed(e)
    requires forall i, j :: 0 <= i < j < |es| ==> Number(es[i]) != Number(es[j])
    ensures ApplyAll(Base(h), es) == Fields(h, es)
  {
    if es == [] {
      FieldsOfNothing(h);
    } else {
      var most, last := es[..|es| - 1], es[|es| - 1];
      FieldsAreMeaning(h, most);
      MeaningStep(h, most, last);
      assert most + [last] == es;
    }
  }

  /** The bytes of a message that the code accepts, with the fields they stand for. */
  ghost predicate Reads(data: bytes, m: Hello) {
    exists w :: Allowed(w) && Message(w) == data && Fields(w.head, w.exts) == m
  }

  lemma WhatIsReadIsAllowed(data: bytes)
    requires ParseWire(data).Some?
    ensures var w := ParseWire(data).value; Allowed(w) && Message(w) == data && Fields(w.head, w.exts) == Meaning(w)
  {
    var w := ParseWire(data).value;
    SerializeOfParse(data);
    AllowedIffValid(w);
    MessageIsSerialized(w);
    FieldsAreMeaning(w.head, w.exts);
  }

  lemma WhatIsAllowedIsRead(w: Wire)
    requires Allowed(w)
    ensures ParseHello(Message(w)) == Some(Fields(w.head, w.exts))
  {
    AllowedIffValid(w);
    MessageIsSerialized(w);
    ParseOfSerialize(w);
    FieldsAreMeaning(w.head, w.exts);
  }

  /** The reader accepts exactly these bytes, and yields exactly these fields. */
  lemma ReadsExactly(data: bytes, m: Hello)
    ensures ParseHello(data) == Some(m) <==> Reads(data, m)
  {
    if ParseHello(data) == Some(m) {
      WhatIsReadIsAllowed(data);
    }
    if w :| Allowed(w) && Message(w) == data && Fields(w.head, w.exts) == m {
      WhatIsAllowedIsRead(w);
    }
  }
}
