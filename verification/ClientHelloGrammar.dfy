/**
 The grammar of the ClientHello that server/sniffing/tls/client_hello.go reads, as values,
 their serialization, and a reader for each piece.

 It is the code's grammar: the record and handshake headers are skipped unread, the
 extensions block is mandatory, and only the extensions the code switches on are opened.
 */
module ClientHelloGrammar {
  import opened Prelude
  import opened Bytes
  import opened Codec

  const EXT_SERVER_NAME: u16 := 0
  const EXT_STATUS_REQUEST: u16 := 5
  const EXT_SUPPORTED_CURVES: u16 := 10
  const EXT_SUPPORTED_POINTS: u16 := 11
  const EXT_SIGNATURE_ALGORITHMS: u16 := 13
  const EXT_ALPN: u16 := 16
  const EXT_SCT: u16 := 18
  const EXT_EXTENDED_MASTER_SECRET: u16 := 23
  const EXT_SESSION_TICKET: u16 := 35
  const EXT_PRE_SHARED_KEY: u16 := 41
  const EXT_EARLY_DATA: u16 := 42
  const EXT_SUPPORTED_VERSIONS: u16 := 43
  const EXT_COOKIE: u16 := 44
  const EXT_PSK_MODES: u16 := 45
  const EXT_SIGNATURE_ALGORITHMS_CERT: u16 := 50
  const EXT_KEY_SHARE: u16 := 51
  const EXT_QUIC_TRANSPORT_PARAMETERS: u16 := 57
  const EXT_RENEGOTIATION_INFO: u16 := 0xff01

  const SCSV_RENEGOTIATION: u16 := 0x00ff
  const STATUS_TYPE_OCSP: byte := 1
  const DOT: byte := 46

  /** The extensions the code opens, by the framing of their bodies. */
  predicate IsLong(id: u16) {
    || id == EXT_SERVER_NAME || id == EXT_SUPPORTED_CURVES || id == EXT_SIGNATURE_ALGORITHMS || id == EXT_ALPN
    || id == EXT_COOKIE || id == EXT_SIGNATURE_ALGORITHMS_CERT || id == EXT_KEY_SHARE
  }

  predicate IsShort(id: u16) {
    id == EXT_SUPPORTED_POINTS || id == EXT_SUPPORTED_VERSIONS || id == EXT_PSK_MODES || id == EXT_RENEGOTIATION_INFO
  }

  predicate IsFlag(id: u16) {
    id == EXT_SCT || id == EXT_EXTENDED_MASTER_SECRET || id == EXT_EARLY_DATA
  }

  predicate IsU16List(id: u16) {
    || id == EXT_SUPPORTED_CURVES || id == EXT_SIGNATURE_ALGORITHMS
    || id == EXT_SIGNATURE_ALGORITHMS_CERT || id == EXT_SUPPORTED_VERSIONS
  }

  predicate Known(id: u16) {
    || IsLong(id) || IsShort(id) || IsFlag(id)
    || id == EXT_STATUS_REQUEST || id == EXT_SESSION_TICKET || id == EXT_PRE_SHARED_KEY
    || id == EXT_QUIC_TRANSPORT_PARAMETERS
  }

  datatype Name = Name(kind: byte, name: bytes)
  datatype KeyShare = KeyShare(group: u16, data: bytes)
  datatype PskIdentity = PskIdentity(identity: bytes, ticketAge: u32)

  /** An extension as it stands in the extensions block. */
  datatype RawExt = RawExt(id: u16, body: bytes)

  /** An extension with its body opened. */
  datatype Ext =
    | ServerName(names: seq<Name>)
    | StatusRequest(kind: byte, responders: bytes, requestExts: bytes)
    | SupportedCurves(curves: seq<u16>)
    | SupportedPoints(points: bytes)
    | SessionTicket(ticket: bytes)
    | SignatureAlgorithms(algs: seq<u16>)
    | SignatureAlgorithmsCert(algsCert: seq<u16>)
    | RenegotiationInfo(info: bytes)
    | ExtendedMasterSecret
    | Alpn(protos: seq<bytes>)
    | Sct
    | SupportedVersions(versions: seq<u16>)
    | Cookie(cookie: bytes)
    | KeyShares(shares: seq<KeyShare>)
    | EarlyData
    | PskModes(modes: bytes)
    | QuicTransportParameters(params: bytes)
    | PreSharedKey(identities: seq<PskIdentity>, binders: seq<bytes>)
    | Unknown(id: u16, body: bytes)

  // ----- items of the packed lists

  function EncU16(n: u16): bytes { Be16(n) }

  predicate ValidU16(n: u16) { true }

  function DecU16(b: bytes): Parsed<u16> { ReadU16(b) }

  function EncName(n: Name): bytes { [n.kind] + Prefixed16(n.name) }

  predicate ValidName(n: Name) { 0 < |n.name| < 0x1_0000 }

  function DecName(b: bytes): (r: Parsed<Name>)
    ensures r.Got? ==> |r.rest| < |b| && r.value.name != []
  {
    match ReadU8(b)
    case Stuck => Stuck
    case Got(kind, rest) =>
      match ReadPrefixed16(rest)
      case Stuck => Stuck
      case Got(name, rest) => if name == [] then Stuck else Got(Name(kind, name), rest)
  }

  function EncProto(p: bytes): bytes { Prefixed8(p) }

  predicate ValidProto(p: bytes) { 0 < |p| < 0x100 }

  function DecProto(b: bytes): Parsed<bytes> {
    match ReadPrefixed8(b)
    case Stuck => Stuck
    case Got(p, rest) => if p == [] then Stuck else Got(p, rest)
  }

  function EncKeyShare(k: KeyShare): bytes { Be16(k.group) + Prefixed16(k.data) }

  predicate ValidKeyShare(k: KeyShare) { 0 < |k.data| < 0x1_0000 }

  function DecKeyShare(b: bytes): Parsed<KeyShare> {
    match ReadU16(b)
    case Stuck => Stuck
    case Got(group, rest) =>
      match ReadPrefixed16(rest)
      case Stuck => Stuck
      case Got(data, rest) => if data == [] then Stuck else Got(KeyShare(group, data), rest)
  }

  function EncIdentity(p: PskIdentity): bytes { Prefixed16(p.identity) + Be32(p.ticketAge) }

  predicate ValidIdentity(p: PskIdentity) { 0 < |p.identity| < 0x1_0000 }

  function DecIdentity(b: bytes): Parsed<PskIdentity> {
    match ReadPrefixed16(b)
    case Stuck => Stuck
    case Got(identity, rest) =>
      match ReadU32(rest)
      case Stuck => Stuck
      case Got(age, rest) => if identity == [] then Stuck else Got(PskIdentity(identity, age), rest)
  }

  function EncRaw(x: RawExt): bytes { Be16(x.id) + Prefixed16(x.body) }

  predicate ValidRaw(x: RawExt) { |x.body| < 0x1_0000 }

  function DecRaw(b: bytes): Parsed<RawExt> {
    match ReadU16(b)
    case Stuck => Stuck
    case Got(id, rest) =>
      match ReadPrefixed16(rest)
      case Stuck => Stuck
      case Got(body, rest) => Got(RawExt(id, body), rest)
  }

  lemma InverseU16()
    ensures Inverse(EncU16, ValidU16, DecU16)
  {
    forall t: u16, rest: bytes ensures TakesBack(EncU16, ValidU16, DecU16, t, rest) { WriteRead16(t, rest); }
    forall b: bytes ensures TakesOnly(EncU16, ValidU16, DecU16, b) { if DecU16(b).Got? { ReadWrite16(b); } }
  }

  lemma InverseName()
    ensures Inverse(EncName, ValidName, DecName)
  {
    forall t: Name, rest: bytes ensures TakesBack(EncName, ValidName, DecName, t, rest) {
      if ValidName(t) {
        assert (EncName(t) + rest)[1..] == Prefixed16(t.name) + rest;
        WriteReadPrefixed16(t.name, rest);
      }
    }
    forall b: bytes ensures TakesOnly(EncName, ValidName, DecName, b) {
      if DecName(b).Got? {
        ReadWritePrefixed16(b[1..]);
        assert EncName(DecName(b).value) + DecName(b).rest == [b[0]] + b[1..];
      }
    }
  }

  lemma InverseProto()
    ensures Inverse(EncProto, ValidProto, DecProto)
  {
    forall t: bytes, rest: bytes ensures TakesBack(EncProto, ValidProto, DecProto, t, rest) {
      if ValidProto(t) {
        WriteReadPrefixed8(t, rest);
      }
    }
    forall b: bytes ensures TakesOnly(EncProto, ValidProto, DecProto, b) {
      if DecProto(b).Got? {
        ReadWritePrefixed8(b);
      }
    }
  }

  lemma InverseKeyShare()
    ensures Inverse(EncKeyShare, ValidKeyShare, DecKeyShare)
  {
    forall t: KeyShare, rest: bytes ensures TakesBack(EncKeyShare, ValidKeyShare, DecKeyShare, t, rest) {
      if ValidKeyShare(t) {
        assert EncKeyShare(t) + rest == Be16(t.group) + (Prefixed16(t.data) + rest);
        WriteRead16(t.group, Prefixed16(t.data) + rest);
        WriteReadPrefixed16(t.data, rest);
      }
    }
    forall b: bytes ensures TakesOnly(EncKeyShare, ValidKeyShare, DecKeyShare, b) {
      if DecKeyShare(b).Got? {
        var t := DecKeyShare(b).value;
        ReadWrite16(b);
        ReadWritePrefixed16(b[2..]);
        assert EncKeyShare(t) + DecKeyShare(b).rest == Be16(t.group) + (Prefixed16(t.data) + DecKeyShare(b).rest);
      }
    }
  }

  lemma IdentityTakesBack(t: PskIdentity, rest: bytes)
    requires ValidIdentity(t)
    ensures DecIdentity(EncIdentity(t) + rest) == Got(t, rest)
  {
    assert EncIdentity(t) + rest == Prefixed16(t.identity) + (Be32(t.ticketAge) + rest);
    WriteReadPrefixed16(t.identity, Be32(t.ticketAge) + rest);
    WriteRead32(t.ticketAge, rest);
  }

  lemma IdentityTakesOnly(b: bytes)
    requires DecIdentity(b).Got?
    ensures ValidIdentity(DecIdentity(b).value) && EncIdentity(DecIdentity(b).value) + DecIdentity(b).rest == b
  {
    var t := DecIdentity(b).value;
    ReadWritePrefixed16(b);
    ReadWrite32(ReadPrefixed16(b).rest);
    assert EncIdentity(t) + DecIdentity(b).rest == Prefixed16(t.identity) + (Be32(t.ticketAge) + DecIdentity(b).rest);
  }

  lemma InverseIdentity()
    ensures Inverse(EncIdentity, ValidIdentity, DecIdentity)
  {
    forall t: PskIdentity, rest: bytes ensures TakesBack(EncIdentity, ValidIdentity, DecIdentity, t, rest) {
      if ValidIdentity(t) { IdentityTakesBack(t, rest); }
    }
    forall b: bytes ensures TakesOnly(EncIdentity, ValidIdentity, DecIdentity, b) {
      if DecIdentity(b).Got? { IdentityTakesOnly(b); }
    }
  }

  lemma InverseRaw()
    ensures Inverse(EncRaw, ValidRaw, DecRaw)
  {
    forall t: RawExt, rest: bytes ensures TakesBack(EncRaw, ValidRaw, DecRaw, t, rest) {
      if ValidRaw(t) {
        assert EncRaw(t) + rest == Be16(t.id) + (Prefixed16(t.body) + rest);
        WriteRead16(t.id, Prefixed16(t.body) + rest);
        WriteReadPrefixed16(t.body, rest);
      }
    }
    forall b: bytes ensures TakesOnly(EncRaw, ValidRaw, DecRaw, b) {
      if DecRaw(b).Got? {
        var t := DecRaw(b).value;
        ReadWrite16(b);
        ReadWritePrefixed16(b[2..]);
        assert EncRaw(t) + DecRaw(b).rest == Be16(t.id) + (Prefixed16(t.body) + DecRaw(b).rest);
      }
    }
  }

  // ----- one extension: the framing of its body

  /** How the body of an extension is cut into strings. */
  datatype Shape = Long | Short | Empty | Status | Psk | Plain

  /** The strings cut out of a body; the parts a shape does not have are left zero. */
  datatype Parts = Parts(kind: byte, first: bytes, second: bytes)

  function ShapeOf(id: u16): Shape {
    if IsLong(id) then Long
    else if IsShort(id) then Short
    else if IsFlag(id) then Empty
    else if id == EXT_STATUS_REQUEST then Status
    else if id == EXT_PRE_SHARED_KEY then Psk
    else Plain
  }

  predicate Fits(shape: Shape, p: Parts) {
    && (shape.Status? || p.kind == 0)
    && (shape.Status? || shape.Psk? || p.second == [])
    && match shape
       case Short => |p.first| < 0x100
       case Empty => p.first == []
       case Plain => true
       case _ => |p.first| < 0x1_0000 && |p.second| < 0x1_0000
  }

  function Join(shape: Shape, p: Parts): bytes {
    match shape
    case Long => Prefixed16(p.first)
    case Short => Prefixed8(p.first)
    case Empty => []
    case Status => [p.kind] + (Prefixed16(p.first) + Prefixed16(p.second))
    case Psk => Prefixed16(p.first) + Prefixed16(p.second)
    case Plain => p.first
  }

  /** A body that is exactly one length-prefixed string. */
  function Whole8(b: bytes): Option<bytes> {
    match ReadPrefixed8(b)
    case Stuck => None
    case Got(v, rest) => if rest == [] then Some(v) else None
  }

  function Whole16(b: bytes): Option<bytes> {
    match ReadPrefixed16(b)
    case Stuck => None
    case Got(v, rest) => if rest == [] then Some(v) else None
  }

  function Halves(kind: byte, b: bytes): Option<Parts> {
    match ReadPrefixed16(b)
    case Stuck => None
    case Got(first, rest) =>
      match Whole16(rest)
      case None => None
      case Some(second) => Some(Parts(kind, first, second))
  }

  function Cut(shape: Shape, b: bytes): Option<Parts> {
    match shape
    case Long => (match Whole16(b) case None => None case Some(v) => Some(Parts(0, v, [])))
    case Short => (match Whole8(b) case None => None case Some(v) => Some(Parts(0, v, [])))
    case Empty => if b == [] then Some(Parts(0, [], [])) else None
    case Status => if b == [] then None else Halves(b[0], b[1..])
    case Psk => Halves(0, b)
    case Plain => Some(Parts(0, b, []))
  }

  lemma WholeOfPrefixed(b: bytes)
    ensures |b| < 0x100 ==> Whole8(Prefixed8(b)) == Some(b)
    ensures |b| < 0x1_0000 ==> Whole16(Prefixed16(b)) == Some(b)
  {
    if |b| < 0x100 { WriteReadPrefixed8(b, []); assert Prefixed8(b) + [] == Prefixed8(b); }
    if |b| < 0x1_0000 { WriteReadPrefixed16(b, []); assert Prefixed16(b) + [] == Prefixed16(b); }
  }

  lemma PrefixedOfWhole(b: bytes)
    ensures Whole8(b).Some? ==> |Whole8(b).value| < 0x100 && Prefixed8(Whole8(b).value) == b
    ensures Whole16(b).Some? ==> |Whole16(b).value| < 0x1_0000 && Prefixed16(Whole16(b).value) == b
  {
    if Whole8(b).Some? { ReadWritePrefixed8(b); assert Prefixed8(Whole8(b).value) + [] == b; }
    if Whole16(b).Some? { ReadWritePrefixed16(b); assert Prefixed16(Whole16(b).value) + [] == b; }
  }

  lemma HalvesOfJoined(kind: byte, a: bytes, b: bytes)
    requires |a| < 0x1_0000 && |b| < 0x1_0000
    ensures Halves(kind, Prefixed16(a) + Prefixed16(b)) == Some(Parts(kind, a, b))
  {
    WriteReadPrefixed16(a, Prefixed16(b));
    WholeOfPrefixed(b);
  }

  lemma JoinedOfHalves(kind: byte, b: bytes)
    requires Halves(kind, b).Some?
    ensures var p := Halves(kind, b).value;
      p.kind == kind && |p.first| < 0x1_0000 && |p.second| < 0x1_0000 && Prefixed16(p.first) + Prefixed16(p.second) == b
  {
    ReadWritePrefixed16(b);
    PrefixedOfWhole(ReadPrefixed16(b).rest);
  }

  lemma CutOfJoin(shape: Shape, p: Parts)
    requires Fits(shape, p)
    ensures Cut(shape, Join(shape, p)) == Some(p)
  {
    match shape
    case Long => WholeOfPrefixed(p.first);
    case Short => WholeOfPrefixed(p.first);
    case Status =>
      HalvesOfJoined(p.kind, p.first, p.second);
      assert Join(shape, p)[1..] == Prefixed16(p.first) + Prefixed16(p.second);
    case Psk => HalvesOfJoined(0, p.first, p.second);
    case _ =>
  }

  lemma JoinOfCut(shape: Shape, b: bytes)
    requires Cut(shape, b).Some?
    ensures Fits(shape, Cut(shape, b).value) && Join(shape, Cut(shape, b).value) == b
  {
    match shape
    case Long => PrefixedOfWhole(b);
    case Short => PrefixedOfWhole(b);
    case Status => JoinedOfHalves(b[0], b[1..]);
    case Psk => JoinedOfHalves(0, b);
    case _ =>
  }

  // ----- one extension: what the parts mean

  function IdOf(e: Ext): u16 {
    match e
    case ServerName(_) => EXT_SERVER_NAME
    case StatusRequest(_, _, _) => EXT_STATUS_REQUEST
    case SupportedCurves(_) => EXT_SUPPORTED_CURVES
    case SupportedPoints(_) => EXT_SUPPORTED_POINTS
    case SessionTicket(_) => EXT_SESSION_TICKET
    case SignatureAlgorithms(_) => EXT_SIGNATURE_ALGORITHMS
    case SignatureAlgorithmsCert(_) => EXT_SIGNATURE_ALGORITHMS_CERT
    case RenegotiationInfo(_) => EXT_RENEGOTIATION_INFO
    case ExtendedMasterSecret => EXT_EXTENDED_MASTER_SECRET
    case Alpn(_) => EXT_ALPN
    case Sct => EXT_SCT
    case SupportedVersions(_) => EXT_SUPPORTED_VERSIONS
    case Cookie(_) => EXT_COOKIE
    case KeyShares(_) => EXT_KEY_SHARE
    case EarlyData => EXT_EARLY_DATA
    case PskModes(_) => EXT_PSK_MODES
    case QuicTransportParameters(_) => EXT_QUIC_TRANSPORT_PARAMETERS
    case PreSharedKey(_, _) => EXT_PRE_SHARED_KEY
    case Unknown(id, _) => id
  }

  function PartsOf(e: Ext): Parts {
    match e
    case ServerName(names) => Parts(0, Flat(EncName, names), [])
    case StatusRequest(kind, responders, requestExts) => Parts(kind, responders, requestExts)
    case SupportedCurves(ns) => Parts(0, Flat(EncU16, ns), [])
    case SupportedPoints(points) => Parts(0, points, [])
    case SessionTicket(ticket) => Parts(0, ticket, [])
    case SignatureAlgorithms(ns) => Parts(0, Flat(EncU16, ns), [])
    case SignatureAlgorithmsCert(ns) => Parts(0, Flat(EncU16, ns), [])
    case RenegotiationInfo(info) => Parts(0, info, [])
    case ExtendedMasterSecret => Parts(0, [], [])
    case Alpn(protos) => Parts(0, Flat(EncProto, protos), [])
    case Sct => Parts(0, [], [])
    case SupportedVersions(ns) => Parts(0, Flat(EncU16, ns), [])
    case Cookie(cookie) => Parts(0, cookie, [])
    case KeyShares(shares) => Parts(0, Flat(EncKeyShare, shares), [])
    case EarlyData => Parts(0, [], [])
    case PskModes(modes) => Parts(0, modes, [])
    case QuicTransportParameters(params) => Parts(0, params, [])
    case PreSharedKey(identities, binders) => Parts(0, Flat(EncIdentity, identities), Flat(EncProto, binders))
    case Unknown(_, body) => Parts(0, body, [])
  }

  predicate OneHostName(names: seq<Name>) {
    forall i, j :: 0 <= i < j < |names| ==> names[i].kind != 0 || names[j].kind != 0
  }

  predicate NoTrailingDot(names: seq<Name>) {
    forall n <- names :: n.kind == 0 && n.name != [] ==> n.name[|n.name| - 1] != DOT
  }

  /** The rules on the values themselves. */
  predicate ValidValues(e: Ext) {
    match e
    case ServerName(names) =>
      names != [] && OneHostName(names) && NoTrailingDot(names) && forall n <- names :: ValidName(n)
    case SupportedCurves(ns) => ns != []
    case SupportedPoints(points) => points != []
    case SignatureAlgorithms(ns) => ns != []
    case SignatureAlgorithmsCert(ns) => ns != []
    case Alpn(protos) => protos != [] && forall p <- protos :: ValidProto(p)
    case SupportedVersions(ns) => ns != []
    case Cookie(cookie) => cookie != []
    case KeyShares(shares) => forall k <- shares :: ValidKeyShare(k)
    case PreSharedKey(identities, binders) =>
      && identities != [] && (forall p <- identities :: ValidIdentity(p))
      && binders != [] && (forall p <- binders :: ValidProto(p))
    case Unknown(id, _) => !Known(id)
    case _ => true
  }

  /** A list that must hold at least one item. */
  function Items<T>(item: bytes -> Parsed<T>, b: bytes): Option<seq<T>> {
    if b == [] then None else List(item, b)
  }

  function U16Ext(id: u16, ns: seq<u16>): Ext {
    if id == EXT_SUPPORTED_CURVES then SupportedCurves(ns)
    else if id == EXT_SIGNATURE_ALGORITHMS then SignatureAlgorithms(ns)
    else if id == EXT_SIGNATURE_ALGORITHMS_CERT then SignatureAlgorithmsCert(ns)
    else SupportedVersions(ns)
  }

  function StringExt(id: u16, b: bytes): Option<Ext> {
    if id == EXT_SUPPORTED_POINTS then if b == [] then None else Some(SupportedPoints(b))
    else if id == EXT_COOKIE then if b == [] then None else Some(Cookie(b))
    else if id == EXT_RENEGOTIATION_INFO then Some(RenegotiationInfo(b))
    else if id == EXT_PSK_MODES then Some(PskModes(b))
    else if id == EXT_SESSION_TICKET then Some(SessionTicket(b))
    else if id == EXT_QUIC_TRANSPORT_PARAMETERS then Some(QuicTransportParameters(b))
    else if id == EXT_EXTENDED_MASTER_SECRET then Some(ExtendedMasterSecret)
    else if id == EXT_SCT then Some(Sct)
    else if id == EXT_EARLY_DATA then Some(EarlyData)
    else Some(Unknown(id, b))
  }

  function Interpret(id: u16, p: Parts): Option<Ext> {
    if id == EXT_SERVER_NAME then
      match Items(DecName, p.first)
      case None => None
      case Some(names) => if OneHostName(names) && NoTrailingDot(names) then Some(ServerName(names)) else None
    else if IsU16List(id) then
      match Items(DecU16, p.first) case None => None case Some(ns) => Some(U16Ext(id, ns))
    else if id == EXT_ALPN then
      match Items(DecProto, p.first) case None => None case Some(protos) => Some(Alpn(protos))
    else if id == EXT_KEY_SHARE then
      match List(DecKeyShare, p.first) case None => None case Some(shares) => Some(KeyShares(shares))
    else if id == EXT_PRE_SHARED_KEY then
      match Items(DecIdentity, p.first)
      case None => None
      case Some(identities) =>
        (match Items(DecProto, p.second)
         case None => None
         case Some(binders) => Some(PreSharedKey(identities, binders)))
    else if id == EXT_STATUS_REQUEST then Some(StatusRequest(p.kind, p.first, p.second))
    else StringExt(id, p.first)
  }

  predicate ValidExt(e: Ext) {
    Fits(ShapeOf(IdOf(e)), PartsOf(e)) && ValidValues(e) && |EncodeExt(e).body| < 0x1_0000
  }

  function EncodeExt(e: Ext): RawExt {
    RawExt(IdOf(e), Join(ShapeOf(IdOf(e)), PartsOf(e)))
  }

  function DecodeExt(x: RawExt): Option<Ext> {
    match Cut(ShapeOf(x.id), x.body) case None => None case Some(p) => Interpret(x.id, p)
  }

  lemma ItemsOfFlat<T(!new)>(enc: T -> bytes, valid: T -> bool, item: bytes -> Parsed<T>, ts: seq<T>)
    requires Inverse(enc, valid, item)
    requires ts != [] && forall t <- ts :: valid(t)
    ensures Items(item, Flat(enc, ts)) == Some(ts)
  {
    ListOfFlat(enc, valid, item, ts);
    assert TakesBack(enc, valid, item, ts[0], []);
  }

  lemma FlatOfItems<T(!new)>(enc: T -> bytes, valid: T -> bool, item: bytes -> Parsed<T>, b: bytes)
    requires Inverse(enc, valid, item)
    requires Items(item, b).Some?
    ensures var ts := Items(item, b).value; ts != [] && (forall t <- ts :: valid(t)) && Flat(enc, ts) == b
  {
    FlatOfList(enc, valid, item, b);
  }

  lemma InterpretOfU16s(id: u16, ns: seq<u16>)
    requires IsU16List(id) && ns != []
    ensures Interpret(id, Parts(0, Flat(EncU16, ns), [])) == Some(U16Ext(id, ns))
  {
    InverseU16();
    ItemsOfFlat(EncU16, ValidU16, DecU16, ns);
  }

  lemma InterpretOfPsk(identities: seq<PskIdentity>, binders: seq<bytes>)
    requires ValidValues(PreSharedKey(identities, binders))
    ensures var e := PreSharedKey(identities, binders); Interpret(EXT_PRE_SHARED_KEY, PartsOf(e)) == Some(e)
  {
    InverseIdentity();
    ItemsOfFlat(EncIdentity, ValidIdentity, DecIdentity, identities);
    InverseProto();
    ItemsOfFlat(EncProto, ValidProto, DecProto, binders);
  }

  lemma InterpretOfStructs(e: Ext)
    requires ValidValues(e) && (e.ServerName? || e.Alpn? || e.KeyShares? || e.PreSharedKey?)
    ensures Interpret(IdOf(e), PartsOf(e)) == Some(e)
  {
    match e
    case ServerName(names) => InverseName(); ItemsOfFlat(EncName, ValidName, DecName, names);
    case Alpn(protos) => InverseProto(); ItemsOfFlat(EncProto, ValidProto, DecProto, protos);
    case KeyShares(shares) => InverseKeyShare(); ListOfFlat(EncKeyShare, ValidKeyShare, DecKeyShare, shares);
    case PreSharedKey(identities, binders) => InterpretOfPsk(identities, binders);
  }

  lemma InterpretOfParts(e: Ext)
    requires ValidValues(e)
    ensures Interpret(IdOf(e), PartsOf(e)) == Some(e)
  {
    if e.ServerName? || e.Alpn? || e.KeyShares? || e.PreSharedKey? {
      InterpretOfStructs(e);
      return;
    }
    match e
    case SupportedCurves(ns) => InterpretOfU16s(IdOf(e), ns);
    case SignatureAlgorithms(ns) => InterpretOfU16s(IdOf(e), ns);
    case SignatureAlgorithmsCert(ns) => InterpretOfU16s(IdOf(e), ns);
    case SupportedVersions(ns) => InterpretOfU16s(IdOf(e), ns);
    case _ =>
  }

  lemma PartsOfInterpret(id: u16, p: Parts)
    requires Fits(ShapeOf(id), p) && Interpret(id, p).Some?
    ensures var e := Interpret(id, p).value; IdOf(e) == id && PartsOf(e) == p && ValidValues(e)
  {
    if id == EXT_SERVER_NAME {
      InverseName(); FlatOfItems(EncName, ValidName, DecName, p.first);
    } else if IsU16List(id) {
      InverseU16(); FlatOfItems(EncU16, ValidU16, DecU16, p.first);
    } else if id == EXT_ALPN {
      InverseProto(); FlatOfItems(EncProto, ValidProto, DecProto, p.first);
    } else if id == EXT_KEY_SHARE {
      InverseKeyShare(); FlatOfList(EncKeyShare, ValidKeyShare, DecKeyShare, p.first);
    } else if id == EXT_PRE_SHARED_KEY {
      InverseIdentity(); FlatOfItems(EncIdentity, ValidIdentity, DecIdentity, p.first);
      InverseProto(); FlatOfItems(EncProto, ValidProto, DecProto, p.second);
    }
  }

  /** Opening what was packed. */
  lemma DecodeOfEncode(e: Ext)
    requires ValidExt(e)
    ensures DecodeExt(EncodeExt(e)) == Some(e)
  {
    CutOfJoin(ShapeOf(IdOf(e)), PartsOf(e));
    InterpretOfParts(e);
  }

  /** Packing what was opened. */
  lemma EncodeOfDecode(x: RawExt)
    requires ValidRaw(x) && DecodeExt(x).Some?
    ensures ValidExt(DecodeExt(x).value) && EncodeExt(DecodeExt(x).value) == x
  {
    JoinOfCut(ShapeOf(x.id), x.body);
    PartsOfInterpret(x.id, Cut(ShapeOf(x.id), x.body).value);
  }
}
