/**
 The canonical serialization of a message value, and the exact set of message values that
 reading a ClientHello can produce.
 */
module ClientHelloCanonical {
  import opened Prelude
  import opened Bytes
  import opened Codec
  import opened ClientHelloGrammar
  import opened ClientHelloMessage

  // ----- the fields of a message, by the extension that writes them

  /** The fields one extension writes, gathered in one record; unused ones are left empty. */
  datatype Slot = Slot(
    flag: bool, text: bytes, numbers: seq<u16>, strings: seq<bytes>,
    shares: seq<KeyShare>, identities: seq<PskIdentity>)

  function Flag(b: bool): Slot { Slot(b, [], [], [], [], []) }

  function Text(b: bytes): Slot { Slot(false, b, [], [], [], []) }

  function Numbers(ns: seq<u16>): Slot { Slot(false, [], ns, [], [], []) }

  function SlotOf(m: Hello, id: u16): Slot {
    if id == EXT_SERVER_NAME then Text(m.serverName)
    else if id == EXT_STATUS_REQUEST then Flag(m.ocspStapling)
    else if id == EXT_SUPPORTED_CURVES then Numbers(m.supportedCurves)
    else if id == EXT_SUPPORTED_POINTS then Text(m.supportedPoints)
    else if id == EXT_SESSION_TICKET then Slot(m.ticketSupported, m.sessionTicket, [], [], [], [])
    else if id == EXT_SIGNATURE_ALGORITHMS then Numbers(m.supportedSignatureAlgorithms)
    else if id == EXT_SIGNATURE_ALGORITHMS_CERT then Numbers(m.supportedSignatureAlgorithmsCert)
    else if id == EXT_RENEGOTIATION_INFO then
      Slot(m.secureRenegotiationSupported, m.secureRenegotiation, [], [], [], [])
    else if id == EXT_EXTENDED_MASTER_SECRET then Flag(m.extendedMasterSecret)
    else if id == EXT_ALPN then Slot(false, [], [], m.alpnProtocols, [], [])
    else if id == EXT_SCT then Flag(m.scts)
    else if id == EXT_SUPPORTED_VERSIONS then Numbers(m.supportedVersions)
    else if id == EXT_COOKIE then Text(m.cookie)
    else if id == EXT_KEY_SHARE then Slot(false, [], [], [], m.keyShares, [])
    else if id == EXT_EARLY_DATA then Flag(m.earlyData)
    else if id == EXT_PSK_MODES then Text(m.pskModes)
    else if id == EXT_QUIC_TRANSPORT_PARAMETERS then Text(m.quicTransportParameters)
    else if id == EXT_PRE_SHARED_KEY then Slot(false, [], [], m.pskBinders, [], m.pskIdentities)
    else Flag(false)
  }

  function AddedText(e: Ext, before: bytes): bytes {
    match e
    case ServerName(names) => if HostName(names) == [] then before else HostName(names)
    case SupportedPoints(b) => b
    case SessionTicket(b) => b
    case RenegotiationInfo(b) => b
    case Cookie(b) => b
    case PskModes(b) => b
    case QuicTransportParameters(b) => b
    case _ => before
  }

  function AddedNumbers(e: Ext, before: seq<u16>): seq<u16> {
    match e
    case SupportedCurves(ns) => before + ns
    case SignatureAlgorithms(ns) => before + ns
    case SignatureAlgorithmsCert(ns) => before + ns
    case SupportedVersions(ns) => before + ns
    case _ => before
  }

  /** What an extension adds to its slot. */
  function Added(s: Slot, e: Ext): Slot {
    Slot(
      if e.StatusRequest? then e.kind == STATUS_TYPE_OCSP
      else s.flag || e.SessionTicket? || e.RenegotiationInfo? || e.ExtendedMasterSecret? || e.Sct? || e.EarlyData?,
      AddedText(e, s.text),
      AddedNumbers(e, s.numbers),
      if e.Alpn? then s.strings + e.protos else if e.PreSharedKey? then s.strings + e.binders else s.strings,
      if e.KeyShares? then s.shares + e.shares else s.shares,
      if e.PreSharedKey? then s.identities + e.identities else s.identities)
  }

  predicate SameHead(m: Hello, n: Hello) {
    && m.vers == n.vers && m.random == n.random && m.sessionId == n.sessionId && m.cipherSuites == n.cipherSuites
    && m.compressionMethods == n.compressionMethods && m.encryptedClientHello == n.encryptedClientHello
  }

  /** An extension changes its own slot and nothing else. */
  lemma SlotOfApply(m: Hello, e: Ext, id: u16)
    ensures SameHead(m, Apply(m, e))
    ensures id != IdOf(e) ==> SlotOf(Apply(m, e), id) == SlotOf(m, id)
  {
  }

  lemma OwnSlotOfApply(m: Hello, e: Ext)
    requires e.Unknown? ==> !Known(e.id)
    ensures SlotOf(Apply(m, e), IdOf(e)) == Added(SlotOf(m, IdOf(e)), e)
  {
  }

  ghost predicate SameSlot(m: Hello, n: Hello, id: u16) {
    SlotOf(m, id) == SlotOf(n, id)
  }

  lemma TextSlotsDetermine(m: Hello, n: Hello)
    requires forall id: u16 :: SameSlot(m, n, id)
    ensures m.serverName == n.serverName && m.supportedPoints == n.supportedPoints
    ensures m.ticketSupported == n.ticketSupported && m.sessionTicket == n.sessionTicket
    ensures m.secureRenegotiationSupported == n.secureRenegotiationSupported
    ensures m.secureRenegotiation == n.secureRenegotiation
    ensures m.cookie == n.cookie && m.pskModes == n.pskModes && m.quicTransportParameters == n.quicTransportParameters
  {
    assert SameSlot(m, n, EXT_SERVER_NAME) && SameSlot(m, n, EXT_SUPPORTED_POINTS);
    assert SameSlot(m, n, EXT_SESSION_TICKET) && SameSlot(m, n, EXT_RENEGOTIATION_INFO);
    assert SameSlot(m, n, EXT_COOKIE) && SameSlot(m, n, EXT_PSK_MODES) && SameSlot(m, n, EXT_QUIC_TRANSPORT_PARAMETERS);
  }

  lemma OtherSlotsDetermine(m: Hello, n: Hello)
    requires forall id: u16 :: SameSlot(m, n, id)
    ensures m.ocspStapling == n.ocspStapling && m.extendedMasterSecret == n.extendedMasterSecret
    ensures m.scts == n.scts && m.earlyData == n.earlyData
    ensures m.supportedCurves == n.supportedCurves && m.supportedVersions == n.supportedVersions
    ensures m.supportedSignatureAlgorithms == n.supportedSignatureAlgorithms
    ensures m.supportedSignatureAlgorithmsCert == n.supportedSignatureAlgorithmsCert
    ensures m.alpnProtocols == n.alpnProtocols && m.keyShares == n.keyShares
    ensures m.pskIdentities == n.pskIdentities && m.pskBinders == n.pskBinders
  {
    assert SameSlot(m, n, EXT_STATUS_REQUEST) && SameSlot(m, n, EXT_EXTENDED_MASTER_SECRET);
    assert SameSlot(m, n, EXT_SCT) && SameSlot(m, n, EXT_EARLY_DATA);
    assert SameSlot(m, n, EXT_SUPPORTED_CURVES) && SameSlot(m, n, EXT_SUPPORTED_VERSIONS);
    assert SameSlot(m, n, EXT_SIGNATURE_ALGORITHMS) && SameSlot(m, n, EXT_SIGNATURE_ALGORITHMS_CERT);
    assert SameSlot(m, n, EXT_ALPN) && SameSlot(m, n, EXT_KEY_SHARE) && SameSlot(m, n, EXT_PRE_SHARED_KEY);
  }

  /** The slots and the head determine the message. */
  lemma SlotsDetermine(m: Hello, n: Hello)
    requires SameHead(m, n) && forall id: u16 :: SameSlot(m, n, id)
    ensures m == n
  {
    TextSlotsDetermine(m, n);
    OtherSlotsDetermine(m, n);
  }

  // ----- the canonical form

  /** The order in which the canonical form writes extensions; pre_shared_key comes last. */
  const ORDER: seq<u16> := [
    EXT_SERVER_NAME, EXT_STATUS_REQUEST, EXT_SUPPORTED_CURVES, EXT_SUPPORTED_POINTS, EXT_SESSION_TICKET,
    EXT_SIGNATURE_ALGORITHMS, EXT_SIGNATURE_ALGORITHMS_CERT, EXT_RENEGOTIATION_INFO, EXT_EXTENDED_MASTER_SECRET,
    EXT_ALPN, EXT_SCT, EXT_SUPPORTED_VERSIONS, EXT_COOKIE, EXT_KEY_SHARE, EXT_EARLY_DATA, EXT_PSK_MODES,
    EXT_QUIC_TRANSPORT_PARAMETERS, EXT_PRE_SHARED_KEY]

  /** The slot as it stands before any extension. */
  function BaseSlot(suites: seq<u16>, id: u16): Slot {
    Flag(id == EXT_RENEGOTIATION_INFO && SCSV_RENEGOTIATION in suites)
  }

  /** The extension that fills a slot, or none if the slot is as it stands without it. */
  function PartFor(suites: seq<u16>, id: u16, s: Slot): Option<Ext> {
    if s == BaseSlot(suites, id) then None
    else if id == EXT_SERVER_NAME then Some(ServerName([Name(0, s.text)]))
    else if id == EXT_STATUS_REQUEST then Some(StatusRequest(STATUS_TYPE_OCSP, [], []))
    else if id == EXT_SUPPORTED_CURVES then Some(SupportedCurves(s.numbers))
    else if id == EXT_SUPPORTED_POINTS then Some(SupportedPoints(s.text))
    else if id == EXT_SESSION_TICKET then Some(SessionTicket(s.text))
    else if id == EXT_SIGNATURE_ALGORITHMS then Some(SignatureAlgorithms(s.numbers))
    else if id == EXT_SIGNATURE_ALGORITHMS_CERT then Some(SignatureAlgorithmsCert(s.numbers))
    else if id == EXT_RENEGOTIATION_INFO then Some(RenegotiationInfo(s.text))
    else if id == EXT_EXTENDED_MASTER_SECRET then Some(ExtendedMasterSecret)
    else if id == EXT_ALPN then Some(Alpn(s.strings))
    else if id == EXT_SCT then Some(Sct)
    else if id == EXT_SUPPORTED_VERSIONS then Some(SupportedVersions(s.numbers))
    else if id == EXT_COOKIE then Some(Cookie(s.text))
    else if id == EXT_KEY_SHARE then Some(KeyShares(s.shares))
    else if id == EXT_EARLY_DATA then Some(EarlyData)
    else if id == EXT_PSK_MODES then Some(PskModes(s.text))
    else if id == EXT_QUIC_TRANSPORT_PARAMETERS then Some(QuicTransportParameters(s.text))
    else if id == EXT_PRE_SHARED_KEY then Some(PreSharedKey(s.identities, s.strings))
    else None
  }

  function Part(m: Hello, id: u16): seq<Ext> {
    match PartFor(m.cipherSuites, id, SlotOf(m, id)) case None => [] case Some(e) => [e]
  }

  function Canon(m: Hello, ids: seq<u16>): seq<Ext> {
    if ids == [] then [] else Part(m, ids[0]) + Canon(m, ids[1..])
  }

  function HeadOf(m: Hello, header: bytes): Head {
    Head(header, m.vers, m.random, m.sessionId, m.cipherSuites, m.compressionMethods)
  }

  /** The canonical ClientHello of a message, under any handshake header. */
  function CanonicalWire(m: Hello, header: bytes): Wire {
    Wire(HeadOf(m, header), Canon(m, ORDER))
  }

  /** Fields that go together agree, and no extension sets encryptedClientHello. */
  predicate Consistent(m: Hello) {
    && m.encryptedClientHello == []
    && (!m.ticketSupported ==> m.sessionTicket == [])
    && (!m.secureRenegotiationSupported ==> m.secureRenegotiation == [])
    && (SCSV_RENEGOTIATION in m.cipherSuites ==> m.secureRenegotiationSupported)
    && (m.pskIdentities == [] <==> m.pskBinders == [])
  }

  /** The number of bytes a list of extensions takes. */
  function Size(es: seq<Ext>): nat {
    if es == [] then 0 else |EncRaw(EncodeExt(es[0]))| + Size(es[1..])
  }

  /** A message value whose fields agree and fit their extensions. */
  predicate WellFormed(m: Hello) {
    && Consistent(m)
    && ValidHead(HeadOf(m, [0, 0, 0, 0]))
    && (forall e <- Canon(m, ORDER) :: ValidExt(e))
    && Size(Canon(m, ORDER)) < 0x1_0000
  }

  // ----- the canonical form is accepted and means the message

  lemma PartIdentified(m: Hello, id: u16)
    ensures |Part(m, id)| <= 1
    ensures forall e <- Part(m, id) :: IdOf(e) == id
  {
  }

  /** The parts of a slot an extension does not write are empty, and those it writes together agree. */
  predicate SlotFits(suites: seq<u16>, id: u16, s: Slot) {
    if id == EXT_SESSION_TICKET then s == Slot(s.flag, s.text, [], [], [], []) && (s.flag || s.text == [])
    else if id == EXT_RENEGOTIATION_INFO then
      s == Slot(s.flag, s.text, [], [], [], []) && (s.flag || (s.text == [] && SCSV_RENEGOTIATION !in suites))
    else if id == EXT_STATUS_REQUEST || IsFlag(id) then s == Flag(s.flag)
    else if IsU16List(id) then s == Numbers(s.numbers)
    else if id == EXT_ALPN then s == Slot(false, [], [], s.strings, [], [])
    else if id == EXT_KEY_SHARE then s == Slot(false, [], [], [], s.shares, [])
    else if id == EXT_PRE_SHARED_KEY then
      s == Slot(false, [], [], s.strings, [], s.identities) && (s.identities == [] <==> s.strings == [])
    else if Known(id) then s == Text(s.text)
    else s == Flag(false)
  }

  lemma SlotsFit(m: Hello, id: u16)
    requires Consistent(m)
    ensures SlotFits(m.cipherSuites, id, SlotOf(m, id))
  {
  }

  /** The part for a slot fills exactly that slot. */
  lemma PartFills(suites: seq<u16>, id: u16, s: Slot)
    requires SlotFits(suites, id, s) && PartFor(suites, id, s).Some?
    ensures Added(BaseSlot(suites, id), PartFor(suites, id, s).value) == s
  {
    assert [] + s.numbers == s.numbers && [] + s.strings == s.strings;
    assert [] + s.shares == s.shares && [] + s.identities == s.identities;
  }

  lemma UnknownSlot(m: Hello, id: u16)
    requires !Known(id)
    ensures SlotOf(m, id) == Flag(false)
  {
  }

  /** Applying the part of one slot copies that slot and no other. */
  lemma PartCopiesSlot(m: Hello, n: Hello, id: u16)
    requires Consistent(m) && SlotOf(n, id) == BaseSlot(m.cipherSuites, id)
    ensures var n' := ApplyAll(n, Part(m, id));
      SameHead(n, n') && SlotOf(n', id) == SlotOf(m, id) && forall k: u16 | k != id :: SlotOf(n', k) == SlotOf(n, k)
  {
    PartIdentified(m, id);
    SlotsFit(m, id);
    if Part(m, id) != [] {
      var e := Part(m, id)[0];
      assert Part(m, id) == [e];
      PartFills(m.cipherSuites, id, SlotOf(m, id));
      OwnSlotOfApply(n, e);
      forall k: u16 | k != id ensures SlotOf(Apply(n, e), k) == SlotOf(n, k) { SlotOfApply(n, e, k); }
      SlotOfApply(n, e, id);
    } else if !Known(id) {
      UnknownSlot(m, id);
    }
  }

  ghost predicate Fresh(ids: seq<u16>) {
    forall i, j :: 0 <= i < j < |ids| ==> ids[i] != ids[j]
  }

  ghost predicate SlotsCopied(m: Hello, n: Hello, n': Hello, ids: seq<u16>) {
    SameHead(n, n') && forall id: u16 :: SlotOf(n', id) == if id in ids then SlotOf(m, id) else SlotOf(n, id)
  }

  /** Applying the canonical extensions of some slots copies those slots and no other. */
  lemma {:induction false} CanonCopiesSlots(m: Hello, n: Hello, ids: seq<u16>)
    requires Consistent(m) && Fresh(ids)
    requires forall id <- ids :: SlotOf(n, id) == BaseSlot(m.cipherSuites, id)
    ensures SlotsCopied(m, n, ApplyAll(n, Canon(m, ids)), ids)
    decreases |ids|
  {
    if ids != [] {
      var id, rest := ids[0], ids[1..];
      var n' := ApplyAll(n, Part(m, id));
      PartCopiesSlot(m, n, id);
      ApplyAllAppend(n, Part(m, id), Canon(m, rest));
      assert forall k <- rest :: k != id && k in ids;
      CanonCopiesSlots(m, n', rest);
      forall k: u16 ensures SlotOf(ApplyAll(n, Canon(m, ids)), k) == if k in ids then SlotOf(m, k) else SlotOf(n, k) {
        assert k in ids <==> k == id || k in rest;
      }
    }
  }

  lemma OrderIsFresh()
    ensures Fresh(ORDER)
    ensures forall i :: 0 <= i < |ORDER| - 1 ==> ORDER[i] != EXT_PRE_SHARED_KEY
  {
  }

  lemma OrderIsComplete(id: u16)
    ensures Known(id) <==> id in ORDER
  {
    assert ORDER[0] == EXT_SERVER_NAME && ORDER[1] == EXT_STATUS_REQUEST && ORDER[2] == EXT_SUPPORTED_CURVES;
    assert ORDER[3] == EXT_SUPPORTED_POINTS && ORDER[4] == EXT_SESSION_TICKET && ORDER[5] == EXT_SIGNATURE_ALGORITHMS;
    assert ORDER[6] == EXT_SIGNATURE_ALGORITHMS_CERT && ORDER[7] == EXT_RENEGOTIATION_INFO;
    assert ORDER[8] == EXT_EXTENDED_MASTER_SECRET && ORDER[9] == EXT_ALPN && ORDER[10] == EXT_SCT;
    assert ORDER[11] == EXT_SUPPORTED_VERSIONS && ORDER[12] == EXT_COOKIE && ORDER[13] == EXT_KEY_SHARE;
    assert ORDER[14] == EXT_EARLY_DATA && ORDER[15] == EXT_PSK_MODES;
    assert ORDER[16] == EXT_QUIC_TRANSPORT_PARAMETERS && ORDER[17] == EXT_PRE_SHARED_KEY;
  }

  ghost predicate DistinctIds(es: seq<Ext>) {
    forall i, j :: 0 <= i < j < |es| ==> IdOf(es[i]) != IdOf(es[j])
  }

  ghost predicate PskIdLast(es: seq<Ext>) {
    forall i :: 0 <= i < |es| - 1 ==> IdOf(es[i]) != EXT_PRE_SHARED_KEY
  }

  lemma IdsOfEncoded(es: seq<Ext>)
    ensures Distinct(EncodeAll(es)) <==> DistinctIds(es)
    ensures PskLast(EncodeAll(es)) <==> PskIdLast(es)
  {
    var xs := EncodeAll(es);
    assert forall i :: 0 <= i < |es| ==> xs[i].id == IdOf(es[i]);
    assert forall i :: 0 <= i < |es| ==> IdOf(es[i]) == xs[i].id;
  }

  /** Canonical extensions carry ids of the list, each at most once and in its order. */
  lemma {:induction false} CanonIds(m: Hello, ids: seq<u16>)
    requires Fresh(ids)
    ensures forall e <- Canon(m, ids) :: IdOf(e) in ids
    ensures DistinctIds(Canon(m, ids))
    ensures (forall i :: 0 <= i < |ids| - 1 ==> ids[i] != EXT_PRE_SHARED_KEY) ==> PskIdLast(Canon(m, ids))
    decreases |ids|
  {
    if ids != [] {
      PartIdentified(m, ids[0]);
      CanonIds(m, ids[1..]);
      assert forall id <- ids[1..] :: id != ids[0];
      assert ids[1..] == [] ==> Canon(m, ids[1..]) == [];
    }
  }

  lemma {:induction false} SizeIsFlatLength(es: seq<Ext>)
    ensures |Flat(EncRaw, EncodeAll(es))| == Size(es)
  {
    if es != [] {
      SizeIsFlatLength(es[1..]);
      assert EncodeAll(es)[1..] == EncodeAll(es[1..]);
    }
  }

  lemma SlotOfBase(h: Head, id: u16)
    ensures SlotOf(Base(h), id) == BaseSlot(h.suites, id)
  {
  }

  /** Every well-formed message value is recovered from its canonical bytes, field by field. */
  lemma CanonicalRoundTrip(m: Hello, header: bytes)
    requires WellFormed(m) && |header| == 4
    ensures ParseHello(Serialize(CanonicalWire(m, header))) == Some(m)
  {
    var w := CanonicalWire(m, header);
    OrderIsFresh();
    CanonIds(m, ORDER);
    IdsOfEncoded(w.exts);
    SizeIsFlatLength(w.exts);
    ParseOfSerialize(w);
    CanonicalMeaning(m, header);
  }

  lemma CanonicalMeaning(m: Hello, header: bytes)
    requires Consistent(m)
    ensures Meaning(CanonicalWire(m, header)) == m
  {
    var w := CanonicalWire(m, header);
    OrderIsFresh();
    forall id: u16 ensures SlotOf(Base(w.head), id) == BaseSlot(m.cipherSuites, id) { SlotOfBase(w.head, id); }
    CanonCopiesSlots(m, Base(w.head), ORDER);
    forall id: u16 ensures SameSlot(Meaning(w), m, id) {
      OrderIsComplete(id);
      if !Known(id) {
        UnknownSlot(m, id);
      }
    }
    SlotsDetermine(Meaning(w), m);
  }

  // ----- every message that reading produces is well formed

  function SizeOf(e: Ext): nat {
    |EncRaw(EncodeExt(e))|
  }

  /** What a slot needs in canonical form is a valid extension. */
  ghost predicate SlotCanon(suites: seq<u16>, id: u16, s: Slot) {
    SlotFits(suites, id, s) && (PartFor(suites, id, s).Some? ==> ValidExt(PartFor(suites, id, s).value))
  }

  ghost function SlotSize(suites: seq<u16>, id: u16, s: Slot): nat {
    match PartFor(suites, id, s) case None => 0 case Some(e) => SizeOf(e)
  }

  lemma {:induction false} HostNameIsListed(names: seq<Name>)
    requires HostName(names) != [] && forall n <- names :: ValidName(n)
    ensures Name(0, HostName(names)) in names
    ensures |EncName(Name(0, HostName(names)))| <= |Flat(EncName, names)|
  {
    if names[0].kind != 0 {
      HostNameIsListed(names[1..]);
    }
  }

  lemma ServerNameSlotCanon(suites: seq<u16>, e: Ext)
    requires ValidExt(e) && e.ServerName?
    ensures var s := Added(BaseSlot(suites, IdOf(e)), e);
      SlotCanon(suites, IdOf(e), s) && SlotSize(suites, IdOf(e), s) <= SizeOf(e)
  {
    var host := HostName(e.names);
    if host != [] {
      HostNameIsListed(e.names);
      var n := Name(0, host);
      assert Flat(EncName, [n]) == EncName(n) + Flat(EncName, []);
      var part := ServerName([n]);
      assert ValidExt(part) && SizeOf(part) <= SizeOf(e);
    }
  }

  /** The canonical part of a slot that only `e` has written is `e` itself, or nothing. */
  ghost predicate OwnPart(suites: seq<u16>, e: Ext) {
    var s := Added(BaseSlot(suites, IdOf(e)), e);
    && SlotFits(suites, IdOf(e), s)
    && (PartFor(suites, IdOf(e), s) == None || PartFor(suites, IdOf(e), s) == Some(e))
  }

  lemma NumbersSlotCanon(suites: seq<u16>, e: Ext)
    requires ValidExt(e)
    requires e.SupportedCurves? || e.SignatureAlgorithms? || e.SignatureAlgorithmsCert? || e.SupportedVersions?
    ensures OwnPart(suites, e)
  {
    if e.SupportedCurves? { assert [] + e.curves == e.curves; }
    if e.SignatureAlgorithms? { assert [] + e.algs == e.algs; }
    if e.SignatureAlgorithmsCert? { assert [] + e.algsCert == e.algsCert; }
    if e.SupportedVersions? { assert [] + e.versions == e.versions; }
  }

  lemma StructSlotCanon(suites: seq<u16>, e: Ext)
    requires ValidExt(e) && (e.Alpn? || e.KeyShares? || e.PreSharedKey?)
    ensures OwnPart(suites, e)
  {
    if e.Alpn? { assert [] + e.protos == e.protos; }
    if e.KeyShares? { assert [] + e.shares == e.shares; }
    if e.PreSharedKey? { assert [] + e.identities == e.identities && [] + e.binders == e.binders; }
  }

  lemma PlainSlotCanon(suites: seq<u16>, e: Ext)
    requires ValidExt(e) && !e.ServerName? && !e.StatusRequest? && !e.Alpn? && !e.KeyShares? && !e.PreSharedKey?
    requires !e.SupportedCurves? && !e.SignatureAlgorithms? && !e.SignatureAlgorithmsCert? && !e.SupportedVersions?
    ensures OwnPart(suites, e)
  {
  }

  lemma OtherSlotCanon(suites: seq<u16>, e: Ext)
    requires ValidExt(e) && !e.ServerName? && !e.StatusRequest?
    ensures OwnPart(suites, e)
  {
    if e.SupportedCurves? || e.SignatureAlgorithms? || e.SignatureAlgorithmsCert? || e.SupportedVersions? {
      NumbersSlotCanon(suites, e);
    } else if e.Alpn? || e.KeyShares? || e.PreSharedKey? {
      StructSlotCanon(suites, e);
    } else {
      PlainSlotCanon(suites, e);
    }
  }

  lemma AddedSlotCanon(suites: seq<u16>, e: Ext)
    requires ValidExt(e)
    ensures var s := Added(BaseSlot(suites, IdOf(e)), e);
      SlotCanon(suites, IdOf(e), s) && SlotSize(suites, IdOf(e), s) <= SizeOf(e)
  {
    if e.ServerName? {
      ServerNameSlotCanon(suites, e);
    } else if !e.StatusRequest? {
      OtherSlotCanon(suites, e);
    }
  }

  /** Changing one slot changes the size of the canonical form by what that slot needs. */
  lemma {:induction false} CanonGrowth(m: Hello, n: Hello, ids: seq<u16>, id: u16, room: nat)
    requires Fresh(ids)
    requires forall k: u16 | k != id :: Part(n, k) == Part(m, k)
    requires Size(Part(n, id)) <= room
    ensures Size(Canon(n, ids)) <= Size(Canon(m, ids)) + if id in ids then room else 0
    decreases |ids|
  {
    if ids != [] {
      CanonGrowth(m, n, ids[1..], id, room);
      assert forall k <- ids[1..] :: k != ids[0];
      SizeAppend(Part(m, ids[0]), Canon(m, ids[1..]));
      SizeAppend(Part(n, ids[0]), Canon(n, ids[1..]));
      assert id in ids <==> id == ids[0] || id in ids[1..];
    }
  }

  lemma {:induction false} SizeAppend(a: seq<Ext>, b: seq<Ext>)
    ensures Size(a + b) == Size(a) + Size(b)
  {
    if a == [] {
      assert a + b == b;
    } else {
      assert (a + b)[1..] == a[1..] + b;
      SizeAppend(a[1..], b);
    }
  }

  /** The state of reading after the extensions `es`. */
  ghost predicate ReadSoFar(h: Head, es: seq<Ext>, m: Hello) {
    && SameHead(Base(h), m)
    && (forall id: u16 :: (forall e <- es :: IdOf(e) != id) ==> SlotOf(m, id) == BaseSlot(h.suites, id))
    && (forall id: u16 :: SlotCanon(h.suites, id, SlotOf(m, id)))
    && Size(Canon(m, ORDER)) <= Size(es)
  }

  lemma {:induction false} CanonOfBase(h: Head, ids: seq<u16>)
    ensures Canon(Base(h), ids) == []
    decreases |ids|
  {
    if ids != [] {
      SlotOfBase(h, ids[0]);
      CanonOfBase(h, ids[1..]);
    }
  }

  lemma BaseSlotCanon(suites: seq<u16>, id: u16)
    ensures SlotCanon(suites, id, BaseSlot(suites, id))
  {
  }

  lemma CanonSizeStep(m: Hello, e: Ext)
    requires ValidExt(e) && SlotOf(m, IdOf(e)) == BaseSlot(m.cipherSuites, IdOf(e))
    ensures Size(Canon(Apply(m, e), ORDER)) <= Size(Canon(m, ORDER)) + SizeOf(e)
  {
    var n, id := Apply(m, e), IdOf(e);
    OwnSlotOfApply(m, e);
    AddedSlotCanon(m.cipherSuites, e);
    SlotOfApply(m, e, id);
    forall k: u16 | k != id ensures Part(n, k) == Part(m, k) { SlotOfApply(m, e, k); }
    PartIdentified(n, id);
    assert Size(Part(n, id)) == SlotSize(m.cipherSuites, id, SlotOf(n, id));
    OrderIsFresh();
    CanonGrowth(m, n, ORDER, id, SizeOf(e));
  }

  /** One slot after one more extension: its own is new and canonical, every other stays. */
  lemma SlotStep(h: Head, es: seq<Ext>, m: Hello, e: Ext, k: u16)
    requires ReadSoFar(h, es, m) && ValidExt(e) && forall d <- es :: IdOf(d) != IdOf(e)
    ensures SlotCanon(h.suites, k, SlotOf(Apply(m, e), k))
    ensures k != IdOf(e) && (forall d <- es :: IdOf(d) != k) ==> SlotOf(Apply(m, e), k) == BaseSlot(h.suites, k)
  {
    if k == IdOf(e) {
      OwnSlotOfApply(m, e);
      AddedSlotCanon(h.suites, e);
    } else {
      SlotOfApply(m, e, k);
    }
  }

  lemma ReadStep(h: Head, es: seq<Ext>, m: Hello, e: Ext)
    requires ReadSoFar(h, es, m) && ValidExt(e)
    requires forall d <- es :: IdOf(d) != IdOf(e)
    ensures ReadSoFar(h, es + [e], Apply(m, e))
  {
    var n := Apply(m, e);
    CanonSizeStep(m, e);
    SizeAppend(es, [e]);
    assert e in es + [e] && forall d <- es :: d in es + [e];
    forall k: u16
      ensures SlotCanon(h.suites, k, SlotOf(n, k))
      ensures (forall d <- es + [e] :: IdOf(d) != k) ==> SlotOf(n, k) == BaseSlot(h.suites, k)
    {
      SlotStep(h, es, m, e, k);
    }
  }

  lemma {:induction false} ReadAll(h: Head, es: seq<Ext>)
    requires (forall e <- es :: ValidExt(e)) && DistinctIds(es)
    ensures ReadSoFar(h, es, ApplyAll(Base(h), es))
  {
    if es == [] {
      forall id: u16
        ensures SlotOf(Base(h), id) == BaseSlot(h.suites, id) && SlotCanon(h.suites, id, SlotOf(Base(h), id))
      {
        SlotOfBase(h, id);
        BaseSlotCanon(h.suites, id);
      }
      CanonOfBase(h, ORDER);
    } else {
      var k := |es| - 1;
      var init, e := es[..k], es[k];
      assert es == init + [e];
      ReadAll(h, init);
      ApplyAllAppend(Base(h), init, [e]);
      ReadStep(h, init, ApplyAll(Base(h), init), e);
    }
  }

  lemma {:induction false} CanonValid(m: Hello, ids: seq<u16>)
    requires forall id: u16 :: SlotCanon(m.cipherSuites, id, SlotOf(m, id))
    ensures forall e <- Canon(m, ids) :: ValidExt(e)
    decreases |ids|
  {
    if ids != [] {
      CanonValid(m, ids[1..]);
      assert SlotCanon(m.cipherSuites, ids[0], SlotOf(m, ids[0]));
    }
  }

  lemma ConsistentSlots(m: Hello)
    requires m.encryptedClientHello == [] && forall id: u16 :: SlotFits(m.cipherSuites, id, SlotOf(m, id))
    ensures Consistent(m)
  {
    assert SlotFits(m.cipherSuites, EXT_SESSION_TICKET, SlotOf(m, EXT_SESSION_TICKET));
    assert SlotFits(m.cipherSuites, EXT_RENEGOTIATION_INFO, SlotOf(m, EXT_RENEGOTIATION_INFO));
    assert SlotFits(m.cipherSuites, EXT_PRE_SHARED_KEY, SlotOf(m, EXT_PRE_SHARED_KEY));
  }

  /** Whatever reading accepts is a well-formed message value. */
  lemma ParsedIsWellFormed(data: bytes)
    requires ParseHello(data).Some?
    ensures WellFormed(ParseHello(data).value)
  {
    var w := ParseWire(data).value;
    var m := Meaning(w);
    SerializeOfParse(data);
    IdsOfEncoded(w.exts);
    ReadAll(w.head, w.exts);
    forall id: u16 ensures SlotFits(m.cipherSuites, id, SlotOf(m, id)) {
      assert SlotCanon(m.cipherSuites, id, SlotOf(m, id));
    }
    ConsistentSlots(m);
    CanonValid(m, ORDER);
    SizeIsFlatLength(w.exts);
  }

  /** The message values that reading can produce are exactly the well-formed ones. */
  lemma ReadableIffWellFormed(m: Hello)
    ensures (exists data :: ParseHello(data) == Some(m)) <==> WellFormed(m)
  {
    if data :| ParseHello(data) == Some(m) {
      ParsedIsWellFormed(data);
    }
    if WellFormed(m) {
      CanonicalRoundTrip(m, [0, 0, 0, 0]);
    }
  }

  /** On success the server name does not end in a dot. */
  lemma AcceptedNameHasNoDot(data: bytes)
    requires ParseHello(data).Some?
    ensures var name := ParseHello(data).value.serverName; name == [] || name[|name| - 1] != DOT
  {
    var w := ParseWire(data).value;
    var m := Meaning(w);
    SerializeOfParse(data);
    IdsOfEncoded(w.exts);
    ReadAll(w.head, w.exts);
    assert SlotCanon(w.head.suites, EXT_SERVER_NAME, SlotOf(m, EXT_SERVER_NAME));
    if m.serverName != [] {
      var n := Name(0, m.serverName);
      assert PartFor(w.head.suites, EXT_SERVER_NAME, Text(m.serverName)) == Some(ServerName([n]));
      assert NoTrailingDot([n]) && n in [n];
    }
  }
}
