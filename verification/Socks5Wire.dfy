/**
 The SOCKS5 messages of utils/socks5/func.go on flat byte strings: what the readers make of a
 stream, and what SendReply writes (sections 4 to 6 of RFC 1928, section 2 of RFC 1929).
 */
module Socks5Wire {
  import opened Bytes
  import opened Prelude

  const VERSION: byte := 5
  const USER_AUTH_VERSION: byte := 1
  const USER_PASS_AUTH: byte := 2
  const IPV4: byte := 1
  const FQDN: byte := 3
  const IPV6: byte := 4

  /** A name or an address, and a port. An address of any length may be stored, as in a net.IP. */
  datatype AddrSpec = AddrSpec(fqdn: bytes, ip: bytes, port: int)

  datatype Problem = TooShort | BadVersion(v: byte) | UnknownType

  /** A reader's result and what it has left in the stream. */
  datatype Answer<+T> = Ok(value: T, rest: bytes) | Err(why: Problem, rest: bytes)

  function Exactly(s: bytes, n: nat): Answer<bytes> {
    if |s| < n then Err(TooShort, []) else Ok(s[..n], s[n..])
  }

  function PortOf(b: bytes): int
    requires |b| == 2
  {
    var hi: int := b[0];
    hi * 0x100 + b[1]
  }

  function ParsePort(fqdn: bytes, ip: bytes, s: bytes): Answer<AddrSpec> {
    match Exactly(s, 2)
    case Err(why, rest) => Err(why, rest)
    case Ok(b, rest) => Ok(AddrSpec(fqdn, ip, PortOf(b)), rest)
  }

  function ParseIp(s: bytes, n: nat): Answer<AddrSpec> {
    match Exactly(s, n)
    case Err(why, rest) => Err(why, rest)
    case Ok(ip, rest) => ParsePort([], ip, rest)
  }

  function ParseName(s: bytes): Answer<AddrSpec> {
    if s == [] then Err(TooShort, [])
    else match Exactly(s[1..], s[0])
      case Err(why, rest) => Err(why, rest)
      case Ok(name, rest) => ParsePort(name, [], rest)
  }

  /** What ReadAddrSpec makes of a stream. */
  function ParseAddr(s: bytes): Answer<AddrSpec> {
    if s == [] then Err(TooShort, [])
    else if s[0] == IPV4 then ParseIp(s[1..], 4)
    else if s[0] == IPV6 then ParseIp(s[1..], 16)
    else if s[0] == FQDN then ParseName(s[1..])
    else Err(UnknownType, s[1..])
  }

  /** What ReadDestAddr makes of a stream. */
  function ParseDest(s: bytes): Answer<AddrSpec> {
    if |s| < 3 then Err(TooShort, [])
    else if s[0] != VERSION then Err(BadVersion(s[0]), s[3..])
    else ParseAddr(s[3..])
  }

  /** The addresses that can come out of a reader. */
  ghost predicate Readable(a: AddrSpec) {
    && 0 <= a.port < 0x1_0000
    && ((a.fqdn == [] && |a.ip| == 4) || (a.fqdn == [] && |a.ip| == 16) || (a.ip == [] && |a.fqdn| < 0x100))
  }

  function Kind(a: AddrSpec): byte {
    if |a.ip| == 4 then IPV4 else if |a.ip| == 16 then IPV6 else FQDN
  }

  function Body(a: AddrSpec): bytes {
    if |a.ip| == 4 || |a.ip| == 16 then a.ip else Prefixed8(a.fqdn)
  }

  /** The one encoding of a readable address. */
  function EncodeAddr(a: AddrSpec): bytes {
    [Kind(a)] + Body(a) + Be16(a.port % 0x1_0000)
  }

  lemma PortReadsBack(n: int, fqdn: bytes, ip: bytes, rest: bytes)
    requires 0 <= n < 0x1_0000
    ensures ParsePort(fqdn, ip, Be16(n) + rest) == Ok(AddrSpec(fqdn, ip, n), rest)
  {
    var s := Be16(n) + rest;
    assert s[..2] == Be16(n) && s[2..] == rest;
  }

  lemma IpReadsBack(ip: bytes, port: int, rest: bytes)
    requires 0 <= port < 0x1_0000
    ensures ParseIp(ip + Be16(port) + rest, |ip|) == Ok(AddrSpec([], ip, port), rest)
  {
    var s := ip + Be16(port) + rest;
    assert s[..|ip|] == ip && s[|ip|..] == Be16(port) + rest;
    PortReadsBack(port, [], ip, rest);
  }

  lemma NameReadsBack(name: bytes, port: int, rest: bytes)
    requires 0 <= port < 0x1_0000 && |name| < 0x100
    ensures ParseName(Prefixed8(name) + Be16(port) + rest) == Ok(AddrSpec(name, [], port), rest)
  {
    var s := Prefixed8(name) + Be16(port) + rest;
    assert s[0] == |name|;
    assert s[1..] == name + (Be16(port) + rest);
    assert s[1..][..|name|] == name && s[1..][|name|..] == Be16(port) + rest;
    PortReadsBack(port, name, [], rest);
  }

  /** Every readable address reads back from its encoding, and nothing after it is touched. */
  lemma AddrReadsBack(a: AddrSpec, rest: bytes)
    requires Readable(a)
    ensures ParseAddr(EncodeAddr(a) + rest) == Ok(a, rest)
  {
    var s := EncodeAddr(a) + rest;
    if |a.ip| == 4 || |a.ip| == 16 {
      assert s[1..] == a.ip + Be16(a.port) + rest;
      IpReadsBack(a.ip, a.port, rest);
    } else {
      assert s[1..] == Prefixed8(a.fqdn) + Be16(a.port) + rest;
      NameReadsBack(a.fqdn, a.port, rest);
    }
  }

  lemma PortSplit(s: bytes, fqdn: bytes, ip: bytes)
    requires ParsePort(fqdn, ip, s).Ok?
    ensures var a := ParsePort(fqdn, ip, s); 0 <= a.value.port < 0x1_0000 && s == Be16(a.value.port) + a.rest
  {
    assert s == [s[0], s[1]] + s[2..];
  }

  lemma Regroup(a: bytes, b: bytes, c: bytes, d: bytes)
    ensures a + (b + c + d) == a + b + c + d
  {
  }

  lemma IpSplit(s: bytes, n: nat)
    requires ParseIp(s, n).Ok?
    ensures var a := ParseIp(s, n);
      && a.value.fqdn == [] && |a.value.ip| == n && 0 <= a.value.port < 0x1_0000
      && s == a.value.ip + Be16(a.value.port) + a.rest
  {
    assert s == s[..n] + s[n..];
    PortSplit(s[n..], [], s[..n]);
  }

  lemma NameSplit(s: bytes)
    requires ParseName(s).Ok?
    ensures var a := ParseName(s);
      && a.value.ip == [] && |a.value.fqdn| < 0x100 && 0 <= a.value.port < 0x1_0000
      && s == Prefixed8(a.value.fqdn) + Be16(a.value.port) + a.rest
  {
    var t := s[1..];
    assert s == [s[0]] + t[..s[0]] + t[s[0]..];
    PortSplit(t[s[0]..], t[..s[0]], []);
  }

  /** Taking an accepted stream apart at its kind, body and port. */
  lemma AddrParts(s: bytes)
    requires ParseAddr(s).Ok?
    ensures var r := ParseAddr(s);
      Readable(r.value) && s[0] == Kind(r.value) && s[1..] == Body(r.value) + Be16(r.value.port) + r.rest
  {
    if s[0] == FQDN {
      NameSplit(s[1..]);
    } else {
      IpSplit(s[1..], if s[0] == IPV4 then 4 else 16);
    }
  }

  /** An accepted stream is the encoding of the address it yields, followed by the rest. */
  lemma AddrSplit(s: bytes)
    requires ParseAddr(s).Ok?
    ensures Readable(ParseAddr(s).value) && s == EncodeAddr(ParseAddr(s).value) + ParseAddr(s).rest
  {
    var r := ParseAddr(s);
    AddrParts(s);
    Regroup([s[0]], Body(r.value), Be16(r.value.port), r.rest);
    assert s == [s[0]] + s[1..];
  }

  /** ReadDestAddr accepts exactly version five, two bytes of any value, and an encoded address. */
  lemma DestExact(s: bytes, a: AddrSpec, rest: bytes)
    ensures ParseDest(s) == Ok(a, rest) <==>
            Readable(a) && |s| >= 3 && s[0] == VERSION && s[3..] == EncodeAddr(a) + rest
  {
    if ParseDest(s) == Ok(a, rest) {
      AddrSplit(s[3..]);
    }
    if Readable(a) && |s| >= 3 && s[0] == VERSION && s[3..] == EncodeAddr(a) + rest {
      AddrReadsBack(a, rest);
    }
  }

  /** The three forms of an address, byte by byte. */
  ghost predicate AddressBytes(b: bytes, a: AddrSpec) {
    && 0 <= a.port <= 65535
    && (|| (a.fqdn == [] && |a.ip| == 4 && b == [1] + a.ip + [a.port / 256, a.port % 256])
        || (a.fqdn == [] && |a.ip| == 16 && b == [4] + a.ip + [a.port / 256, a.port % 256])
        || (a.ip == [] && |a.fqdn| <= 255 && b == [3, |a.fqdn|] + a.fqdn + [a.port / 256, a.port % 256]))
  }

  lemma EncodedInBytes(a: AddrSpec)
    requires Readable(a)
    ensures AddressBytes(EncodeAddr(a), a)
  {
    if |a.ip| != 4 && |a.ip| != 16 {
      assert [3] + Prefixed8(a.fqdn) == [3, |a.fqdn|] + a.fqdn;
    }
  }

  lemma BytesAreEncoded(b: bytes, a: AddrSpec)
    requires AddressBytes(b, a)
    ensures Readable(a) && EncodeAddr(a) == b
  {
    if |a.ip| != 4 && |a.ip| != 16 {
      assert [3] + Prefixed8(a.fqdn) == [3, |a.fqdn|] + a.fqdn;
    }
  }

  /** ReadDestAddr accepts a 5, two bytes of any value, and an address in one of its three forms. */
  lemma DestInBytes(s: bytes, a: AddrSpec, rest: bytes)
    ensures ParseDest(s) == Ok(a, rest) <==>
            |s| >= 3 && s[0] == 5 && exists b :: s[3..] == b + rest && AddressBytes(b, a)
  {
    DestExact(s, a, rest);
    if ParseDest(s) == Ok(a, rest) {
      EncodedInBytes(a);
    } else if |s| >= 3 && s[0] == 5 {
      forall b | s[3..] == b + rest && AddressBytes(b, a) ensures false {
        BytesAreEncoded(b, a);
      }
    }
  }

  /** How it refuses: another version, another kind of address, or too few bytes, and then it has read them all. */
  lemma DestRefusals(s: bytes)
    ensures |s| >= 3 && s[0] != 5 <==> ParseDest(s).Err? && ParseDest(s).why.BadVersion?
    ensures |s| >= 3 && s[0] != 5 ==> ParseDest(s) == Err(BadVersion(s[0]), s[3..])
    ensures |s| >= 4 && s[0] == 5 && s[3] != 1 && s[3] != 3 && s[3] != 4 <==>
            ParseDest(s).Err? && ParseDest(s).why.UnknownType?
    ensures |s| >= 4 && s[0] == 5 && s[3] != 1 && s[3] != 3 && s[3] != 4 ==> ParseDest(s) == Err(UnknownType, s[4..])
    ensures ParseDest(s).Err? && ParseDest(s).why.TooShort? ==> ParseDest(s).rest == []
  {
  }

  // ----- SendReply

  /** The first twelve bytes of an IPv4 address in IPv6 form. */
  function MappedPrefix(): bytes {
    [0, 0, 0, 0, 0, 0, 0, 0, 0, 0, 0xff, 0xff]
  }

  /** net.IP.To4: the four bytes of an IPv4 address in either form. */
  function To4(ip: bytes): Option<bytes> {
    if |ip| == 4 then Some(ip)
    else if |ip| == 16 && ip[..12] == MappedPrefix() then Some(ip[12..])
    else None
  }

  /** net.IP.To16 for an address that is not an IPv4 address. */
  function To16(ip: bytes): Option<bytes> {
    if |ip| == 16 then Some(ip) else None
  }

  /** The address as it is meant to arrive: no address is 0.0.0.0 port 0, a name drops the
      address, and an IPv4 address is in its short form. */
  function Normal(addr: Option<AddrSpec>): Option<AddrSpec> {
    match addr
    case None => Some(AddrSpec([], [0, 0, 0, 0], 0))
    case Some(a) =>
      if a.fqdn != [] then Some(AddrSpec(a.fqdn, [], a.port))
      else if To4(a.ip).Some? then Some(AddrSpec([], To4(a.ip).value, a.port))
      else if To16(a.ip).Some? then Some(AddrSpec([], a.ip, a.port))
      else None
  }

  /** The bytes of a reply; None when the address cannot be written. */
  function Reply(resp: byte, addr: Option<AddrSpec>): Option<bytes> {
    match Normal(addr)
    case None => None
    case Some(a) => Some([VERSION, resp, 0] + EncodeAddr(a))
  }

  lemma NormalReadable(addr: Option<AddrSpec>)
    requires Normal(addr).Some?
    ensures Readable(Normal(addr).value) <==>
            addr.Some? ==> |addr.value.fqdn| < 0x100 && 0 <= addr.value.port < 0x1_0000
  {
  }

  /**
   What ReadDestAddr makes of a reply followed by anything is the address that was sent, and it
   leaves exactly what followed: for a name of up to 255 bytes or an address, with a port of 16
   bits, and for nothing else.
   */
  lemma ReplyReadsBackIff(resp: byte, addr: Option<AddrSpec>, rest: bytes)
    requires Reply(resp, addr).Some?
    ensures ParseDest(Reply(resp, addr).value + rest) == Ok(Normal(addr).value, rest) <==>
            (addr.Some? ==> |addr.value.fqdn| < 0x100 && 0 <= addr.value.port < 0x1_0000)
  {
    var a := Normal(addr).value;
    var s := Reply(resp, addr).value + rest;
    assert s[0] == VERSION && s[3..] == EncodeAddr(a) + rest;
    NormalReadable(addr);
    DestExact(s, a, rest);
  }

  /** What SendReply puts on the wire, byte by byte, or None if it refuses. The port is cut to 16 bits and the length of
      a name to 8; an IPv4 address in either form goes out as its four bytes. */
  ghost predicate ReplyBytes(out: Option<bytes>, resp: byte, addr: Option<AddrSpec>) {
    match addr
    case None => out == Some([5, resp, 0, 1, 0, 0, 0, 0, 0, 0])
    case Some(a) =>
      var port := [a.port % 65536 / 256, a.port % 256];
      if a.fqdn != [] then out == Some([5, resp, 0, 3, |a.fqdn| % 256] + a.fqdn + port)
      else if |a.ip| == 4 then out == Some([5, resp, 0, 1] + a.ip + port)
      else if |a.ip| == 16 then
        if a.ip[..12] == [0, 0, 0, 0, 0, 0, 0, 0, 0, 0, 255, 255]
        then out == Some([5, resp, 0, 1, a.ip[12], a.ip[13], a.ip[14], a.ip[15]] + port)
        else out == Some([5, resp, 0, 4] + a.ip + port)
      else out == None
  }

  lemma PortInBytes(port: int)
    ensures Be16(port % 0x1_0000) == [port % 65536 / 256, port % 256]
  {
    var q, r := port / 0x1_0000, port % 0x1_0000;
    assert port == 256 * (256 * q + r / 256) + r % 256;
  }

  lemma Assembled(resp: byte, kind: byte, body: bytes, port: bytes)
    ensures [5, resp, 0] + ([kind] + body + port) == [5, resp, 0, kind] + body + port
  {
  }

  lemma ReplyInBytes(resp: byte, addr: Option<AddrSpec>)
    ensures ReplyBytes(Reply(resp, addr), resp, addr)
  {
    assert [5, resp, 0] + ([1] + [0, 0, 0, 0] + [0, 0]) == [5, resp, 0, 1, 0, 0, 0, 0, 0, 0];
    if Normal(addr).Some? {
      var a := Normal(addr).value;
      PortInBytes(a.port);
      Assembled(resp, Kind(a), Body(a), Be16(a.port % 0x1_0000));
      assert a.fqdn != [] ==> [5, resp, 0, 3] + Prefixed8(a.fqdn) == [5, resp, 0, 3, |a.fqdn| % 256] + a.fqdn;
      if addr.Some? && |addr.value.ip| == 16 {
        var ip := addr.value.ip;
        assert ip[12..] == [ip[12], ip[13], ip[14], ip[15]];
        assert [5, resp, 0, 1] + ip[12..] == [5, resp, 0, 1, ip[12], ip[13], ip[14], ip[15]];
      }
    }
  }

  /** An IPv4 address is answered with the same bytes whether it is held in four bytes or in sixteen. */
  lemma Ipv4InEitherForm(resp: byte, a: byte, b: byte, c: byte, d: byte, port: u16)
    ensures Reply(resp, Some(AddrSpec([], [a, b, c, d], port)))
            == Some([5, resp, 0, 1, a, b, c, d, port / 256, port % 256])
    ensures Reply(resp, Some(AddrSpec([], [0, 0, 0, 0, 0, 0, 0, 0, 0, 0, 255, 255, a, b, c, d], port)))
            == Some([5, resp, 0, 1, a, b, c, d, port / 256, port % 256])
  {
    var mapped: bytes := [0, 0, 0, 0, 0, 0, 0, 0, 0, 0, 255, 255, a, b, c, d];
    ReplyInBytes(resp, Some(AddrSpec([], [a, b, c, d], port)));
    ReplyInBytes(resp, Some(AddrSpec([], mapped, port)));
    assert mapped[..12] == [0, 0, 0, 0, 0, 0, 0, 0, 0, 0, 255, 255];
    assert [5, resp, 0, 1] + [a, b, c, d] == [5, resp, 0, 1, a, b, c, d];
    assert [5, resp, 0, 1, a, b, c, d] + [port / 256, port % 256]
           == [5, resp, 0, 1, a, b, c, d, port / 256, port % 256];
  }

  // ----- user name and password

  datatype Login = Login(user: bytes, pass: bytes)

  function ParsePassword(user: bytes, s: bytes): Answer<Login> {
    if s == [] then Err(TooShort, [])
    else match Exactly(s[1..], s[0])
      case Err(why, rest) => Err(why, rest)
      case Ok(pass, rest) => Ok(Login(user, pass), rest)
  }

  function ParseLogin(s: bytes): Answer<Login> {
    if |s| < 2 then Err(TooShort, [])
    else if s[0] != USER_AUTH_VERSION then Err(BadVersion(s[0]), s[2..])
    else match Exactly(s[2..], s[1])
      case Err(why, rest) => Err(why, rest)
      case Ok(user, rest) => ParsePassword(user, rest)
  }

  function EncodeLogin(l: Login): bytes {
    [USER_AUTH_VERSION] + Prefixed8(l.user) + Prefixed8(l.pass)
  }

  lemma LoginReadsBack(l: Login, rest: bytes)
    requires |l.user| < 0x100 && |l.pass| < 0x100
    ensures ParseLogin(EncodeLogin(l) + rest) == Ok(l, rest)
  {
    var s := EncodeLogin(l) + rest;
    assert s[1] == |l.user|;
    var t := Prefixed8(l.pass) + rest;
    assert s[2..] == l.user + t;
    assert s[2..][..|l.user|] == l.user && s[2..][|l.user|..] == t;
    assert t[1..] == l.pass + rest;
    assert t[1..][..|l.pass|] == l.pass && t[1..][|l.pass|..] == rest;
  }

  lemma PasswordSplit(user: bytes, s: bytes)
    requires ParsePassword(user, s).Ok?
    ensures var a := ParsePassword(user, s);
      a.value.user == user && |a.value.pass| < 0x100 && s == Prefixed8(a.value.pass) + a.rest
  {
    assert s == [s[0]] + s[1..][..s[0]] + s[1..][s[0]..];
  }

  lemma UserSplit(s: bytes)
    requires |s| >= 2 && s[1] <= |s| - 2
    ensures s == [s[0]] + (Prefixed8(s[2..][..s[1]]) + s[2..][s[1]..])
  {
    var user, t := s[2..][..s[1]], s[2..][s[1]..];
    assert s[2..] == user + t;
    assert Prefixed8(user) == [s[1]] + user;
    assert s == [s[0]] + ([s[1]] + s[2..]);
    assert [s[1]] + (user + t) == ([s[1]] + user) + t;
  }

  lemma LoginSplit(s: bytes)
    requires ParseLogin(s).Ok?
    ensures var a := ParseLogin(s);
      |a.value.user| < 0x100 && |a.value.pass| < 0x100 && s == EncodeLogin(a.value) + a.rest
  {
    var a := ParseLogin(s);
    var user, t := s[2..][..s[1]], s[2..][s[1]..];
    UserSplit(s);
    PasswordSplit(user, t);
    Regroup([s[0]], Prefixed8(user), Prefixed8(a.value.pass), a.rest);
    assert Prefixed8(user) + (Prefixed8(a.value.pass) + a.rest) == Prefixed8(user) + Prefixed8(a.value.pass) + a.rest;
  }

  /** GetUserPassword accepts exactly the encodings of a login. */
  lemma LoginExact(s: bytes, l: Login, rest: bytes)
    ensures ParseLogin(s) == Ok(l, rest) <==>
            |l.user| < 0x100 && |l.pass| < 0x100 && s == EncodeLogin(l) + rest
  {
    if ParseLogin(s) == Ok(l, rest) {
      LoginSplit(s);
    }
    if |l.user| < 0x100 && |l.pass| < 0x100 && s == EncodeLogin(l) + rest {
      LoginReadsBack(l, rest);
    }
  }

  /** The same byte by byte, and how it refuses: another version, or too few bytes, and then it has read them all. */
  lemma LoginInBytes(s: bytes, l: Login, rest: bytes)
    ensures ParseLogin(s) == Ok(l, rest) <==>
            |l.user| <= 255 && |l.pass| <= 255 && s == [1, |l.user|] + l.user + [|l.pass|] + l.pass + rest
    ensures |s| >= 2 && s[0] != 1 <==> ParseLogin(s).Err? && ParseLogin(s).why.BadVersion?
    ensures |s| >= 2 && s[0] != 1 ==> ParseLogin(s) == Err(BadVersion(s[0]), s[2..])
    ensures ParseLogin(s).Err? && !ParseLogin(s).why.BadVersion? ==> ParseLogin(s) == Err(TooShort, [])
  {
    LoginExact(s, l, rest);
    if |l.user| <= 255 && |l.pass| <= 255 {
      assert EncodeLogin(l) + rest == [1, |l.user|] + l.user + [|l.pass|] + l.pass + rest;
    }
  }
}
