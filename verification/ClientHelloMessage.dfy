/**
 Whole ClientHello messages: their serialization, the reader that inverts it, and the
 message value they stand for.
 */
module ClientHelloMessage {
  import opened Prelude
  import opened Bytes
  import opened Codec
  import opened ClientHelloGrammar

  /** What precedes the extensions block. */
  datatype Head = Head(header: bytes, vers: u16, random: bytes, session: bytes, suites: seq<u16>, compression: bytes)

  /** A whole ClientHello, behind the five bytes of the record header. */
  datatype Wire = Wire(head: Head, exts: seq<Ext>)

  // ----- the part before the extensions block

  predicate ValidHead(h: Head) {
    && |h.header| == 4 && |h.random| == 32
    && |h.session| < 0x100 && |h.compression| < 0x100
    && |Flat(EncU16, h.suites)| < 0x1_0000
  }

  function WriteFront(h: Head): bytes {
    h.header + (Be16(h.vers) + (h.random + Prefixed8(h.session)))
  }

  function WriteBack(suites: seq<u16>, compression: bytes, block: bytes): bytes {
    Prefixed16(Flat(EncU16, suites)) + (Prefixed8(compression) + Prefixed16(block))
  }

  /** The bytes of a ClientHello whose extensions block is `block`. */
  function WriteHead(h: Head, block: bytes): bytes {
    WriteFront(h) + WriteBack(h.suites, h.compression, block)
  }

  /** Header, version, random and session id; the suites and compression are left empty. */
  function ReadFront(b: bytes): Parsed<Head> {
    match ReadBytes(b, 4)
    case Stuck => Stuck
    case Got(header, b) =>
      match ReadU16(b)
      case Stuck => Stuck
      case Got(vers, b) =>
        match ReadBytes(b, 32)
        case Stuck => Stuck
        case Got(random, b) =>
          match ReadPrefixed8(b)
          case Stuck => Stuck
          case Got(session, b) => Got(Head(header, vers, random, session, [], []), b)
  }

  datatype Back = Back(suites: seq<u16>, compression: bytes, block: bytes)

  function ReadBack(b: bytes): Option<Back> {
    match ReadPrefixed16(b)
    case Stuck => None
    case Got(packed, b) =>
      match List(DecU16, packed)
      case None => None
      case Some(suites) =>
        match ReadPrefixed8(b)
        case Stuck => None
        case Got(compression, b) =>
          match Whole16(b)
          case None => None
          case Some(block) => Some(Back(suites, compression, block))
  }

  function ReadHead(b: bytes): Option<(Head, bytes)> {
    match ReadFront(b)
    case Stuck => None
    case Got(h, rest) =>
      match ReadBack(rest)
      case None => None
      case Some(back) => Some((h.(suites := back.suites, compression := back.compression), back.block))
  }

  lemma ReadOfWriteFront(h: Head, rest: bytes)
    requires ValidHead(h)
    ensures ReadFront(WriteFront(h) + rest) == Got(h.(suites := [], compression := []), rest)
  {
    var s3 := Prefixed8(h.session) + rest;
    var s2 := h.random + s3;
    var s1 := Be16(h.vers) + s2;
    assert WriteFront(h) + rest == h.header + s1;
    WriteReadBytes(h.header, s1);
    WriteRead16(h.vers, s2);
    WriteReadBytes(h.random, s3);
    WriteReadPrefixed8(h.session, rest);
  }

  lemma WriteOfReadFront(b: bytes)
    requires ReadFront(b).Got?
    ensures var h := ReadFront(b).value; ValidHead(h) && WriteFront(h) + ReadFront(b).rest == b
  {
    var h, rest := ReadFront(b).value, ReadFront(b).rest;
    var s1 := ReadBytes(b, 4).rest;
    var s2 := ReadU16(s1).rest;
    var s3 := ReadBytes(s2, 32).rest;
    ReadWrite16(s1);
    ReadWritePrefixed8(s3);
    calc {
      WriteFront(h) + rest;
      h.header + (Be16(h.vers) + (h.random + (Prefixed8(h.session) + rest)));
      h.header + (Be16(h.vers) + s2);
      b;
    }
  }

  lemma ReadOfWriteBack(suites: seq<u16>, compression: bytes, block: bytes)
    requires |Flat(EncU16, suites)| < 0x1_0000 && |compression| < 0x100 && |block| < 0x1_0000
    ensures ReadBack(WriteBack(suites, compression, block)) == Some(Back(suites, compression, block))
  {
    InverseU16();
    ListOfFlat(EncU16, ValidU16, DecU16, suites);
    WriteReadPrefixed16(Flat(EncU16, suites), Prefixed8(compression) + Prefixed16(block));
    WriteReadPrefixed8(compression, Prefixed16(block));
    WholeOfPrefixed(block);
  }

  lemma WriteOfReadBack(b: bytes)
    requires ReadBack(b).Some?
    ensures var r := ReadBack(b).value;
      && |Flat(EncU16, r.suites)| < 0x1_0000 && |r.compression| < 0x100 && |r.block| < 0x1_0000
      && WriteBack(r.suites, r.compression, r.block) == b
  {
    InverseU16();
    ReadWritePrefixed16(b);
    FlatOfList(EncU16, ValidU16, DecU16, ReadPrefixed16(b).value);
    ReadWritePrefixed8(ReadPrefixed16(b).rest);
    PrefixedOfWhole(ReadPrefixed8(ReadPrefixed16(b).rest).rest);
  }

  lemma ReadOfWriteHead(h: Head, block: bytes)
    requires ValidHead(h) && |block| < 0x1_0000
    ensures ReadHead(WriteHead(h, block)) == Some((h, block))
  {
    ReadOfWriteFront(h, WriteBack(h.suites, h.compression, block));
    ReadOfWriteBack(h.suites, h.compression, block);
  }

  lemma WriteOfReadHead(b: bytes)
    requires ReadHead(b).Some?
    ensures var (h, block) := ReadHead(b).value; ValidHead(h) && |block| < 0x1_0000 && WriteHead(h, block) == b
  {
    WriteOfReadFront(b);
    WriteOfReadBack(ReadFront(b).rest);
  }

  // ----- the extensions block

  predicate Distinct(xs: seq<RawExt>) {
    forall i, j :: 0 <= i < j < |xs| ==> xs[i].id != xs[j].id
  }

  predicate PskLast(xs: seq<RawExt>) {
    forall i :: 0 <= i < |xs| - 1 ==> xs[i].id != EXT_PRE_SHARED_KEY
  }

  function DecodeAll(xs: seq<RawExt>): Option<seq<Ext>> {
    if xs == [] then Some([])
    else
      match DecodeExt(xs[0])
      case None => None
      case Some(e) =>
        match DecodeAll(xs[1..])
        case None => None
        case Some(es) => Some([e] + es)
  }

  function EncodeAll(es: seq<Ext>): (xs: seq<RawExt>)
    ensures |xs| == |es|
    ensures forall i :: 0 <= i < |es| ==> xs[i] == EncodeExt(es[i])
  {
    seq(|es|, i requires 0 <= i < |es| => EncodeExt(es[i]))
  }

  function ReadBlock(block: bytes): Option<seq<Ext>> {
    match List(DecRaw, block)
    case None => None
    case Some(xs) => if Distinct(xs) && PskLast(xs) then DecodeAll(xs) else None
  }

  predicate ValidBlock(es: seq<Ext>) {
    && (forall e <- es :: ValidExt(e))
    && Distinct(EncodeAll(es)) && PskLast(EncodeAll(es))
    && |Flat(EncRaw, EncodeAll(es))| < 0x1_0000
  }

  lemma {:induction false} DecodeAllOfEncodeAll(es: seq<Ext>)
    requires forall e <- es :: ValidExt(e)
    ensures DecodeAll(EncodeAll(es)) == Some(es)
  {
    if es != [] {
      DecodeOfEncode(es[0]);
      DecodeAllOfEncodeAll(es[1..]);
      assert EncodeAll(es)[1..] == EncodeAll(es[1..]);
      assert [es[0]] + es[1..] == es;
    }
  }

  lemma EncodeAllCons(e: Ext, es: seq<Ext>)
    ensures EncodeAll([e] + es) == [EncodeExt(e)] + EncodeAll(es)
  {
  }

  lemma {:induction false} EncodeAllOfDecodeAll(xs: seq<RawExt>)
    requires (forall x <- xs :: ValidRaw(x)) && DecodeAll(xs).Some?
    ensures EncodeAll(DecodeAll(xs).value) == xs && forall e <- DecodeAll(xs).value :: ValidExt(e)
  {
    if xs != [] {
      var e, es := DecodeExt(xs[0]).value, DecodeAll(xs[1..]).value;
      EncodeOfDecode(xs[0]);
      EncodeAllOfDecodeAll(xs[1..]);
      EncodeAllCons(e, es);
      assert [xs[0]] + xs[1..] == xs;
    }
  }

  lemma EncodedAreRaw(es: seq<Ext>)
    requires forall e <- es :: ValidExt(e)
    ensures forall x <- EncodeAll(es) :: ValidRaw(x)
  {
    forall i | 0 <= i < |es| ensures ValidRaw(EncodeAll(es)[i]) { assert ValidExt(es[i]); }
  }

  lemma ReadOfWriteBlock(es: seq<Ext>)
    requires ValidBlock(es)
    ensures ReadBlock(Flat(EncRaw, EncodeAll(es))) == Some(es)
  {
    InverseRaw();
    EncodedAreRaw(es);
    ListOfFlat(EncRaw, ValidRaw, DecRaw, EncodeAll(es));
    DecodeAllOfEncodeAll(es);
  }

  lemma WriteOfReadBlock(block: bytes)
    requires |block| < 0x1_0000 && ReadBlock(block).Some?
    ensures ValidBlock(ReadBlock(block).value) && Flat(EncRaw, EncodeAll(ReadBlock(block).value)) == block
  {
    InverseRaw();
    FlatOfList(EncRaw, ValidRaw, DecRaw, block);
    EncodeAllOfDecodeAll(List(DecRaw, block).value);
  }

  // ----- the whole message on the wire

  predicate ValidWire(w: Wire) {
    ValidHead(w.head) && ValidBlock(w.exts)
  }

  function Serialize(w: Wire): bytes {
    WriteHead(w.head, Flat(EncRaw, EncodeAll(w.exts)))
  }

  function ParseWire(data: bytes): Option<Wire> {
    match ReadHead(data)
    case None => None
    case Some((h, block)) => match ReadBlock(block) case None => None case Some(es) => Some(Wire(h, es))
  }

  /** Every well-formed ClientHello is read back from its bytes. */
  lemma ParseOfSerialize(w: Wire)
    requires ValidWire(w)
    ensures ParseWire(Serialize(w)) == Some(w)
  {
    ReadOfWriteHead(w.head, Flat(EncRaw, EncodeAll(w.exts)));
    ReadOfWriteBlock(w.exts);
  }

  /** Whatever is read is well formed and was exactly the input. */
  lemma SerializeOfParse(data: bytes)
    requires ParseWire(data).Some?
    ensures ValidWire(ParseWire(data).value) && Serialize(ParseWire(data).value) == data
  {
    WriteOfReadHead(data);
    WriteOfReadBlock(ReadHead(data).value.1);
  }

  /** The reader accepts exactly the language of the grammar. */
  lemma AcceptsExactlyTheGrammar(data: bytes)
    ensures ParseWire(data).Some? <==> exists w :: ValidWire(w) && Serialize(w) == data
    ensures forall w, w' :: ValidWire(w) && ValidWire(w') && Serialize(w) == Serialize(w') ==> w == w'
  {
    if ParseWire(data).Some? { SerializeOfParse(data); }
    forall w | ValidWire(w) ensures ParseWire(Serialize(w)) == Some(w) { ParseOfSerialize(w); }
  }

  // ----- the message value

  datatype Hello = Hello(
    vers: u16,
    random: bytes,
    sessionId: bytes,
    cipherSuites: seq<u16>,
    compressionMethods: bytes,
    serverName: bytes,
    ocspStapling: bool,
    supportedCurves: seq<u16>,
    supportedPoints: bytes,
    ticketSupported: bool,
    sessionTicket: bytes,
    supportedSignatureAlgorithms: seq<u16>,
    supportedSignatureAlgorithmsCert: seq<u16>,
    secureRenegotiationSupported: bool,
    secureRenegotiation: bytes,
    extendedMasterSecret: bool,
    alpnProtocols: seq<bytes>,
    scts: bool,
    supportedVersions: seq<u16>,
    cookie: bytes,
    keyShares: seq<KeyShare>,
    earlyData: bool,
    pskModes: bytes,
    pskIdentities: seq<PskIdentity>,
    pskBinders: seq<bytes>,
    quicTransportParameters: bytes,
    encryptedClientHello: bytes)

  const ZERO_HELLO: Hello := Hello(
    0, [], [], [], [], [], false, [], [], false, [], [], [], false, [],
    false, [], false, [], [], [], false, [], [], [], [], [])

  /** The host name of a name list: the name of type 0, of which a valid list has at most one. */
  function HostName(names: seq<Name>): bytes {
    if names == [] then [] else if names[0].kind == 0 then names[0].name else HostName(names[1..])
  }

  /** What one extension adds to the message: each field is written by at most one extension. */
  function Apply(m: Hello, e: Ext): Hello {
    m.(
      serverName := if e.ServerName? && HostName(e.names) != [] then HostName(e.names) else m.serverName,
      ocspStapling := if e.StatusRequest? then e.kind == STATUS_TYPE_OCSP else m.ocspStapling,
      supportedCurves := if e.SupportedCurves? then m.supportedCurves + e.curves else m.supportedCurves,
      supportedPoints := if e.SupportedPoints? then e.points else m.supportedPoints,
      ticketSupported := e.SessionTicket? || m.ticketSupported,
      sessionTicket := if e.SessionTicket? then e.ticket else m.sessionTicket,
      supportedSignatureAlgorithms :=
        if e.SignatureAlgorithms? then m.supportedSignatureAlgorithms + e.algs else m.supportedSignatureAlgorithms,
      supportedSignatureAlgorithmsCert :=
        if e.SignatureAlgorithmsCert? then m.supportedSignatureAlgorithmsCert + e.algsCert
        else m.supportedSignatureAlgorithmsCert,
      secureRenegotiation := if e.RenegotiationInfo? then e.info else m.secureRenegotiation,
      secureRenegotiationSupported := e.RenegotiationInfo? || m.secureRenegotiationSupported,
      extendedMasterSecret := e.ExtendedMasterSecret? || m.extendedMasterSecret,
      alpnProtocols := if e.Alpn? then m.alpnProtocols + e.protos else m.alpnProtocols,
      scts := e.Sct? || m.scts,
      supportedVersions := if e.SupportedVersions? then m.supportedVersions + e.versions else m.supportedVersions,
      cookie := if e.Cookie? then e.cookie else m.cookie,
      keyShares := if e.KeyShares? then m.keyShares + e.shares else m.keyShares,
      earlyData := e.EarlyData? || m.earlyData,
      pskModes := if e.PskModes? then e.modes else m.pskModes,
      quicTransportParameters := if e.QuicTransportParameters? then e.params else m.quicTransportParameters,
      pskIdentities := if e.PreSharedKey? then m.pskIdentities + e.identities else m.pskIdentities,
      pskBinders := if e.PreSharedKey? then m.pskBinders + e.binders else m.pskBinders)
  }

  function ApplyAll(m: Hello, es: seq<Ext>): Hello
    decreases |es|
  {
    if es == [] then m else ApplyAll(Apply(m, es[0]), es[1..])
  }

  /** The message before any extension; the renegotiation suite already sets its flag. */
  function Base(h: Head): Hello {
    ZERO_HELLO.(
      vers := h.vers, random := h.random, sessionId := h.session, cipherSuites := h.suites,
      compressionMethods := h.compression, secureRenegotiationSupported := SCSV_RENEGOTIATION in h.suites)
  }

  function Meaning(w: Wire): Hello {
    ApplyAll(Base(w.head), w.exts)
  }

  /** The message a ClientHello stands for, if it is one. */
  function ParseHello(data: bytes): Option<Hello> {
    match ParseWire(data) case None => None case Some(w) => Some(Meaning(w))
  }

  lemma {:induction false} ApplyAllAppend(m: Hello, a: seq<Ext>, b: seq<Ext>)
    ensures ApplyAll(m, a + b) == ApplyAll(ApplyAll(m, a), b)
    decreases |a|
  {
    if a == [] {
      assert a + b == b;
    } else {
      assert (a + b)[1..] == a[1..] + b;
      ApplyAllAppend(Apply(m, a[0]), a[1..], b);
    }
  }
}
