/**
 Whole ClientHello messages written out, with one extension each: what server/sniffing/tls/client_hello.go
 makes of an ordinary message, extension by extension.
 */
module ClientHelloDisplays {
  import opened Prelude
  import opened Bytes
  import opened ClientHelloGrammar
  import opened ClientHelloMessage
  import opened ClientHelloBytes

  /** TLS 1.2 on the outside, no session, one cipher suite, no compression, and the extensions `exts`. */
  function Wrapped(header: bytes, random: bytes, exts: bytes): bytes
    requires |exts| <= 65535
  {
    header + [3, 3] + random + [0] + [0, 2, 0x13, 1] + [1, 0] + [|exts| / 256, |exts| % 256] + exts
  }

  /** What such a message says without its extensions. */
  function Bare(random: bytes): Hello {
    Hello(0x0303, random, [], [0x1301], [0], [], false, [], [], false, [], [], [], false, [],
          false, [], false, [], [], [], false, [], [], [], [], [])
  }

  /** `data` is such a message with the extensions `exts`. */
  predicate Carries(data: bytes, header: bytes, random: bytes, exts: bytes) {
    |header| == 4 && |random| == 32 && |exts| <= 65535 && data == Wrapped(header, random, exts)
  }

  function BareHead(header: bytes, random: bytes): Head {
    Head(header, 0x0303, random, [], [0x1301], [0])
  }

  lemma LengthsWrittenOut(x: bytes)
    requires |x| <= 65535
    ensures Behind1([]) == [0] && Behind1([0]) == [1, 0] && Two(0x0303) == [3, 3]
    ensures Behind2(NumberList([0x1301])) == [0, 2, 0x13, 1]
    ensures Two(|x|) == [|x| / 256, |x| % 256]
  {
    assert NumberList([0x1301]) == Two(0x1301) + NumberList([0x1301][1..]) == [0x13, 1];
  }

  lemma WrappedIsMessage(header: bytes, random: bytes, e: Ext)
    requires |Extension(e)| <= 65535
    ensures Wrapped(header, random, Extension(e)) == Message(Wire(BareHead(header, random), [e]))
  {
    var x := Extension(e);
    LengthsWrittenOut(x);
    assert Extensions([e]) == x + Extensions([e][1..]) == x;
    var front := header + [3, 3] + random + [0] + [0, 2, 0x13, 1] + [1, 0];
    assert front + Two(|x|) + x == front + Behind2(x);
  }

  lemma OneExtensionReads(data: bytes, header: bytes, random: bytes, e: Ext)
    requires Carries(data, header, random, Extension(e)) && ContentAllowed(e)
    ensures Reads(data, Fields(BareHead(header, random), [e]))
  {
    WrappedIsMessage(header, random, e);
    assert Extensions([e]) == Extension(e) + Extensions([e][1..]) == Extension(e);
    assert Allowed(Wire(BareHead(header, random), [e]));
  }

  lemma FieldsOfNone(header: bytes, random: bytes, ns: seq<u16>)
    ensures Fields(Head(header, 0x0303, random, [], ns, [0]), [])
            == Bare(random).(cipherSuites := ns, secureRenegotiationSupported := 0x00ff in ns)
  {
  }

  lemma NewToNone(e: Ext)
    requires ContentAllowed(e)
    ensures New([], e)
  {
  }

  lemma FieldsOfOne(header: bytes, random: bytes, e: Ext)
    requires ContentAllowed(e)
    ensures Fields(BareHead(header, random), [e]) == Apply(Bare(random), e)
  {
    NewToNone(e);
    FieldsStep(BareHead(header, random), [], e);
    FieldsOfNone(header, random, [0x1301]);
    assert [] + [e] == [e] && 0x00ff !in [0x1301];
  }

  /** A message with one allowed extension is accepted, and that extension sets its fields. */
  lemma OneExtension(data: bytes, header: bytes, random: bytes, x: bytes, e: Ext)
    requires Carries(data, header, random, x) && x == Extension(e) && ContentAllowed(e)
    ensures ParseHello(data) == Some(Apply(Bare(random), e))
  {
    OneExtensionReads(data, header, random, e);
    FieldsOfOne(header, random, e);
    ReadsExactly(data, Fields(BareHead(header, random), [e]));
  }

  // ----- framings

  lemma FramedPlain(id: u16, b: bytes)
    requires |b| <= 65535
    ensures Two(id) + Behind2(b) == [id / 256, id % 256, |b| / 256, |b| % 256] + b
  {
  }

  lemma Framed1(id: u16, b: bytes)
    requires |b| <= 255
    ensures Two(id) + Behind2(Behind1(b)) == [id / 256, id % 256, (|b| + 1) / 256, (|b| + 1) % 256, |b|] + b
  {
    FramedPlain(id, Behind1(b));
  }

  lemma Framed2(id: u16, b: bytes)
    requires |b| <= 65533
    ensures var k := |b|;
      Two(id) + Behind2(Behind2(b)) == [id / 256, id % 256, (k + 2) / 256, (k + 2) % 256, k / 256, k % 256] + b
  {
    FramedPlain(id, Behind2(b));
  }

  // ----- extension by extension

  lemma ServerNameWrittenOut(name: bytes)
    requires |name| <= 65526
    ensures var k := |name|;
      Extension(ServerName([Name(0, name)]))
      == [0, 0, (k + 5) / 256, (k + 5) % 256, (k + 3) / 256, (k + 3) % 256] + ([0, k / 256, k % 256] + name)
  {
    var names, list := [Name(0, name)], [0, |name| / 256, |name| % 256] + name;
    assert [0] + Behind2(name) == list;
    assert NameList(names) == list + NameList(names[1..]) == list;
    Framed2(0, list);
  }

  /** `data` is an ordinary message that names the host `name`, which does not end in a dot. */
  predicate NamesHost(data: bytes, header: bytes, random: bytes, name: bytes) {
    && |header| == 4 && |random| == 32 && 1 <= |name| <= 65526 && name[|name| - 1] != '.' as int
    && var k := |name|; var n := k + 9;
       data == header + [3, 3] + random + [0] + [0, 2, 0x13, 1] + [1, 0] + [n / 256, n % 256]
         + ([0, 0, (k + 5) / 256, (k + 5) % 256, (k + 3) / 256, (k + 3) % 256] + ([0, k / 256, k % 256] + name))
  }

  /** server_name. */
  lemma ReadsServerName(data: bytes, header: bytes, random: bytes, name: bytes)
    requires NamesHost(data, header, random, name)
    ensures ParseHello(data) == Some(Bare(random).(serverName := name))
  {
    var e := ServerName([Name(0, name)]);
    ServerNameWrittenOut(name);
    OneExtension(data, header, random, Extension(e), e);
  }

  lemma StatusWrittenOut(kind: byte, a: bytes, b: bytes)
    requires |a| + |b| <= 65526
    ensures var body := [kind] + ([|a| / 256, |a| % 256] + a) + ([|b| / 256, |b| % 256] + b);
      Extension(StatusRequest(kind, a, b)) == [0, 5, |body| / 256, |body| % 256] + body
  {
    assert Behind2(a) == [|a| / 256, |a| % 256] + a && Behind2(b) == [|b| / 256, |b| % 256] + b;
    FramedPlain(5, Content(StatusRequest(kind, a, b)));
  }

  /** status_request: only type 1 asks for stapling. */
  lemma ReadsStatusRequest(
    data: bytes, header: bytes, random: bytes, x: bytes, kind: byte, body: bytes, a: bytes, b: bytes)
    requires Carries(data, header, random, x) && |a| + |b| <= 65526
    requires body == [kind] + ([|a| / 256, |a| % 256] + a) + ([|b| / 256, |b| % 256] + b)
    requires x == [0, 5, |body| / 256, |body| % 256] + body
    ensures ParseHello(data) == Some(Bare(random).(ocspStapling := kind == 1))
  {
    StatusWrittenOut(kind, a, b);
    OneExtension(data, header, random, x, StatusRequest(kind, a, b));
  }

  lemma NumbersSet(random: bytes, ns: seq<u16>)
    ensures Apply(Bare(random), SupportedCurves(ns)) == Bare(random).(supportedCurves := ns)
    ensures Apply(Bare(random), SignatureAlgorithms(ns)) == Bare(random).(supportedSignatureAlgorithms := ns)
    ensures Apply(Bare(random), SignatureAlgorithmsCert(ns)) == Bare(random).(supportedSignatureAlgorithmsCert := ns)
    ensures Apply(Bare(random), SupportedVersions(ns)) == Bare(random).(supportedVersions := ns)
  {
    assert [] + ns == ns;
  }

  /** supported_groups, signature_algorithms, signature_algorithms_cert: a list behind its length in two bytes. */
  lemma ReadsNumbers(data: bytes, header: bytes, random: bytes, x: bytes, id: u16, list: bytes, ns: seq<u16>)
    requires Carries(data, header, random, x) && ns != [] && list == NumberList(ns) && |list| <= 65529
    requires var k := |list|; x == [id / 256, id % 256, (k + 2) / 256, (k + 2) % 256, k / 256, k % 256] + list
    ensures id == 10 ==> ParseHello(data) == Some(Bare(random).(supportedCurves := ns))
    ensures id == 13 ==> ParseHello(data) == Some(Bare(random).(supportedSignatureAlgorithms := ns))
    ensures id == 50 ==> ParseHello(data) == Some(Bare(random).(supportedSignatureAlgorithmsCert := ns))
  {
    Framed2(id, list);
    assert x == Two(id) + Behind2(Behind2(list));
    NumbersSet(random, ns);
    if id == 10 {
      OneExtension(data, header, random, x, SupportedCurves(ns));
    } else if id == 13 {
      OneExtension(data, header, random, x, SignatureAlgorithms(ns));
    } else if id == 50 {
      OneExtension(data, header, random, x, SignatureAlgorithmsCert(ns));
    }
  }

  lemma VersionsWrittenOut(ns: seq<u16>, list: bytes)
    requires list == NumberList(ns) && |list| <= 254
    ensures Extension(SupportedVersions(ns)) == [0, 43, 0, |list| + 1, |list|] + list
  {
    Framed1(43, list);
  }

  /** supported_versions: a list behind its length in one byte. */
  lemma ReadsVersions(data: bytes, header: bytes, random: bytes, x: bytes, list: bytes, ns: seq<u16>)
    requires Carries(data, header, random, x) && 1 <= |ns| <= 127 && list == NumberList(ns) && |list| <= 254
    requires x == [0, 43, 0, |list| + 1, |list|] + list
    ensures ParseHello(data) == Some(Bare(random).(supportedVersions := ns))
  {
    VersionsWrittenOut(ns, list);
    NumbersSet(random, ns);
    OneExtension(data, header, random, x, SupportedVersions(ns));
  }

  /** Where the numbers of such a list stand: the higher byte of each first. */
  lemma {:induction false} NumbersInPlace(ns: seq<u16>, i: nat)
    requires i < |ns|
    ensures |NumberList(ns)| == 2 * |ns|
    ensures NumberList(ns)[2 * i] == ns[i] / 256 && NumberList(ns)[2 * i + 1] == ns[i] % 256
  {
    NumbersFlat(ns[1..]);
    if i > 0 {
      NumbersInPlace(ns[1..], i - 1);
    }
  }

  /** ec_point_formats, psk_key_exchange_modes, renegotiation_info: a string behind its length in one byte. */
  lemma ReadsStrings(data: bytes, header: bytes, random: bytes, x: bytes, id: u16, b: bytes)
    requires Carries(data, header, random, x) && |b| <= 255
    requires x == [id / 256, id % 256, (|b| + 1) / 256, (|b| + 1) % 256, |b|] + b
    ensures id == 11 && b != [] ==> ParseHello(data) == Some(Bare(random).(supportedPoints := b))
    ensures id == 45 ==> ParseHello(data) == Some(Bare(random).(pskModes := b))
    ensures id == 0xff01 ==>
      ParseHello(data) == Some(Bare(random).(secureRenegotiation := b, secureRenegotiationSupported := true))
  {
    Framed1(id, b);
    if id == 11 && b != [] {
      OneExtension(data, header, random, x, SupportedPoints(b));
    } else if id == 45 {
      OneExtension(data, header, random, x, PskModes(b));
    } else if id == 0xff01 {
      OneExtension(data, header, random, x, RenegotiationInfo(b));
    }
  }

  /** cookie: a string behind its length in two bytes. */
  lemma ReadsCookie(data: bytes, header: bytes, random: bytes, x: bytes, b: bytes)
    requires Carries(data, header, random, x) && 1 <= |b| <= 65533
    requires var k := |b|; x == [0, 44, (k + 2) / 256, (k + 2) % 256, k / 256, k % 256] + b
    ensures ParseHello(data) == Some(Bare(random).(cookie := b))
  {
    Framed2(44, b);
    OneExtension(data, header, random, x, Cookie(b));
  }

  /** signed_certificate_timestamp, extended_master_secret, early_data: nothing but the number. */
  lemma ReadsFlag(data: bytes, header: bytes, random: bytes, lo: byte)
    requires Carries(data, header, random, [0, lo, 0, 0])
    ensures lo == 18 ==> ParseHello(data) == Some(Bare(random).(scts := true))
    ensures lo == 23 ==> ParseHello(data) == Some(Bare(random).(extendedMasterSecret := true))
    ensures lo == 42 ==> ParseHello(data) == Some(Bare(random).(earlyData := true))
  {
    var x := [0, lo, 0, 0];
    FramedPlain(lo, []);
    if lo == 18 {
      OneExtension(data, header, random, x, Sct);
    } else if lo == 23 {
      OneExtension(data, header, random, x, ExtendedMasterSecret);
    } else if lo == 42 {
      OneExtension(data, header, random, x, EarlyData);
    }
  }

  /** session_ticket, quic_transport_parameters, and what the code does not open: any content. */
  lemma ReadsPlain(data: bytes, header: bytes, random: bytes, x: bytes, id: u16, b: bytes)
    requires Carries(data, header, random, x) && |b| <= 65535
    requires x == [id / 256, id % 256, |b| / 256, |b| % 256] + b
    ensures id == 35 ==> ParseHello(data) == Some(Bare(random).(ticketSupported := true, sessionTicket := b))
    ensures id == 57 ==> ParseHello(data) == Some(Bare(random).(quicTransportParameters := b))
    ensures !Opened(id) ==> ParseHello(data) == Some(Bare(random))
  {
    FramedPlain(id, b);
    if id == 35 {
      OneExtension(data, header, random, x, SessionTicket(b));
    } else if id == 57 {
      OneExtension(data, header, random, x, QuicTransportParameters(b));
    } else if !Opened(id) {
      OneExtension(data, header, random, x, Unknown(id, b));
    }
  }

  lemma StringWrittenOut(binder: bytes)
    requires |binder| <= 255
    ensures StringList([binder]) == [|binder|] + binder
  {
    assert StringList([binder]) == Behind1(binder) + StringList([binder][1..]) == Behind1(binder);
  }

  lemma AlpnWrittenOut(proto: bytes)
    requires |proto| <= 255
    ensures var k := |proto|;
      Extension(Alpn([proto])) == [0, 16, (k + 3) / 256, (k + 3) % 256, (k + 1) / 256, (k + 1) % 256] + ([k] + proto)
  {
    StringWrittenOut(proto);
    Framed2(16, [|proto|] + proto);
  }

  /** application_layer_protocol_negotiation, with one protocol. */
  lemma ReadsAlpn(data: bytes, header: bytes, random: bytes, x: bytes, proto: bytes)
    requires Carries(data, header, random, x) && 1 <= |proto| <= 255
    requires var k := |proto|;
      x == [0, 16, (k + 3) / 256, (k + 3) % 256, (k + 1) / 256, (k + 1) % 256] + ([k] + proto)
    ensures ParseHello(data) == Some(Bare(random).(alpnProtocols := [proto]))
  {
    AlpnWrittenOut(proto);
    assert [] + [proto] == [proto];
    OneExtension(data, header, random, x, Alpn([proto]));
  }

  lemma KeyShareWrittenOut(group: u16, key: bytes)
    requires |key| <= 65529
    ensures var share := [group / 256, group % 256, |key| / 256, |key| % 256] + key; var k := |share|;
      Extension(KeyShares([KeyShare(group, key)]))
      == [0, 51, (k + 2) / 256, (k + 2) % 256, k / 256, k % 256] + share
  {
    var shares, share := [KeyShare(group, key)], Two(group) + Behind2(key);
    FramedPlain(group, key);
    assert ShareList(shares) == share + ShareList(shares[1..]) == share;
    Framed2(51, share);
  }

  /** key_share, with one share. */
  lemma ReadsKeyShare(data: bytes, header: bytes, random: bytes, x: bytes, share: bytes, group: u16, key: bytes)
    requires Carries(data, header, random, x) && 1 <= |key| <= 65529
    requires share == [group / 256, group % 256, |key| / 256, |key| % 256] + key
    requires var k := |share|; x == [0, 51, (k + 2) / 256, (k + 2) % 256, k / 256, k % 256] + share
    ensures ParseHello(data) == Some(Bare(random).(keyShares := [KeyShare(group, key)]))
  {
    var shares := [KeyShare(group, key)];
    KeyShareWrittenOut(group, key);
    assert [] + shares == shares;
    OneExtension(data, header, random, x, KeyShares(shares));
  }

  lemma IdentityWrittenOut(identity: bytes, age: u32)
    requires |identity| <= 65000
    ensures var k := |identity|;
      IdentityList([PskIdentity(identity, age)])
      == [k / 256, k % 256] + identity + [age / 16777216, age / 65536 % 256, age / 256 % 256, age % 256]
  {
    var ids := [PskIdentity(identity, age)];
    assert IdentityList(ids) == Behind2(identity) + Four(age) + IdentityList(ids[1..]) == Behind2(identity) + Four(age);
  }

  lemma PskWrittenOut(e: Ext, list: bytes, binders: bytes)
    requires e.PreSharedKey? && list == IdentityList(e.identities) && binders == StringList(e.binders)
    requires |list| + |binders| <= 65531
    ensures var k, j := |list|, |binders|;
      Content(e) == ([k / 256, k % 256] + list) + ([j / 256, j % 256] + binders)
  {
  }

  /** pre_shared_key, with one identity and one binder. */
  lemma ReadsPreSharedKey(
    data: bytes, header: bytes, random: bytes, x: bytes, body: bytes, list: bytes, binders: bytes,
    identity: bytes, age: u32, binder: bytes)
    requires Carries(data, header, random, x) && 1 <= |identity| <= 65000 && 1 <= |binder| <= 255
    requires var k := |identity|;
      list == [k / 256, k % 256] + identity + [age / 16777216, age / 65536 % 256, age / 256 % 256, age % 256]
    requires binders == [|binder|] + binder
    requires var k, j := |list|, |binders|; body == ([k / 256, k % 256] + list) + ([j / 256, j % 256] + binders)
    requires x == [0, 41, |body| / 256, |body| % 256] + body
    ensures ParseHello(data)
            == Some(Bare(random).(pskIdentities := [PskIdentity(identity, age)], pskBinders := [binder]))
  {
    var ids := [PskIdentity(identity, age)];
    var e := PreSharedKey(ids, [binder]);
    IdentityWrittenOut(identity, age);
    StringWrittenOut(binder);
    PskWrittenOut(e, list, binders);
    FramedPlain(41, body);
    assert [] + ids == ids && [] + [binder] == [binder];
    OneExtension(data, header, random, x, e);
  }

  // ----- cipher suites

  lemma SuitesWrittenOut(header: bytes, random: bytes, list: bytes, ns: seq<u16>)
    requires list == NumberList(ns) && |list| <= 65535
    ensures header + [3, 3] + random + [0] + ([|list| / 256, |list| % 256] + list) + [1, 0] + [0, 0]
            == Message(Wire(Head(header, 0x0303, random, [], ns, [0]), []))
  {
    LengthsWrittenOut(list);
    assert Extensions([]) == [] && Behind2([]) == [0, 0];
    assert Behind2(list) == [|list| / 256, |list| % 256] + list;
  }

  lemma SuitesRead(data: bytes, w: Wire)
    requires |w.head.header| == 4 && |w.head.random| == 32 && |w.head.suites| <= 32767
    requires w.head.session == [] && w.head.compression == [0] && w.exts == [] && data == Message(w)
    ensures Reads(data, Fields(w.head, w.exts))
  {
    assert Allowed(w);
  }

  /** The suite 00 FF, among any others, says that renegotiation is secure. */
  lemma ReadsSuites(data: bytes, header: bytes, random: bytes, list: bytes, ns: seq<u16>)
    requires |header| == 4 && |random| == 32 && list == NumberList(ns) && |ns| <= 32767 && |list| <= 65535
    requires data == header + [3, 3] + random + [0] + ([|list| / 256, |list| % 256] + list) + [1, 0] + [0, 0]
    ensures ParseHello(data)
            == Some(Bare(random).(cipherSuites := ns, secureRenegotiationSupported := 0x00ff in ns))
  {
    var h := Head(header, 0x0303, random, [], ns, [0]);
    SuitesWrittenOut(header, random, list, ns);
    FieldsOfNone(header, random, ns);
    SuitesRead(data, Wire(h, []));
    ReadsExactly(data, Fields(h, []));
  }
}
