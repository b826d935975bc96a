/**
 The SOCKS5 readers and the reply writer of utils/socks5/func.go on a connection that delivers
 its bytes in chunks of any size. Every result is shown to be a function of the bytes alone.
 */
module Socks5 {
  import opened Bytes
  import opened Prelude
  import opened Socks5Wire

  function Flat(chunks: seq<bytes>): bytes {
    if chunks == [] then [] else chunks[0] + Flat(chunks[1..])
  }

  class Conn {
    var chunks: seq<bytes>     // what is still to arrive, as it will arrive
    var written: bytes

    ghost predicate Valid()
      reads this
    {
      forall i :: 0 <= i < |chunks| ==> chunks[i] != []
    }

    ghost function Incoming(): bytes
      reads this
    {
      Flat(chunks)
    }

    constructor (arriving: seq<bytes>)
      requires forall i :: 0 <= i < |arriving| ==> arriving[i] != []
      ensures Valid() && chunks == arriving && written == []
    {
      chunks, written := arriving, [];
    }

    /** One read: some bytes, at most `n` of them, or the end of the stream. */
    method Read(n: nat) returns (data: bytes, ok: bool)
      requires Valid() && n > 0
      modifies this`chunks
      ensures Valid() && data + Incoming() == old(Incoming())
      ensures ok <==> old(Incoming()) != []
      ensures if ok then 1 <= |data| <= n else data == []
    {
      if chunks == [] {
        return [], false;
      }
      var first := chunks[0];
      if |first| <= n {
        chunks := chunks[1..];
        return first, true;
      }
      data, ok := first[..n], true;
      chunks := [first[n..]] + chunks[1..];
      assert chunks[1..] == old(chunks)[1..];
      assert data + (first[n..] + Flat(chunks[1..])) == first + Flat(chunks[1..]);
    }

    /** io.ReadAtLeast with a buffer of the same size: `n` bytes, or everything there is if that is less. */
    method ReadFull(n: nat) returns (data: bytes, ok: bool)
      requires Valid()
      modifies this`chunks
      ensures Valid()
      ensures ok <==> n <= |old(Incoming())|
      ensures if ok then Exactly(old(Incoming()), n) == Ok(data, Incoming())
              else Exactly(old(Incoming()), n) == Err(TooShort, Incoming())
    {
      data, ok := [], true;
      while |data| < n && ok
        invariant Valid() && |data| <= n
        invariant data + Incoming() == old(Incoming())
        invariant !ok ==> Incoming() == [] && |data| < n
        decreases n - |data|, ok
      {
        ghost var got := data;
        var more;
        more, ok := Read(n - |data|);
        data := data + more;
        assert got + (more + Incoming()) == data + Incoming();
      }
      assert ok ==> old(Incoming())[..n] == data && old(Incoming())[n..] == Incoming();
    }

    method Write(data: bytes)
      modifies this`written
      ensures written == old(written) + data
    {
      written := written + data;
    }
  }

  datatype Outcome<+T> = Done(value: T) | Failed(why: Problem)

  /** An outcome together with what it left in the stream. */
  function Answered<T>(o: Outcome<T>, rest: bytes): Answer<T> {
    match o case Done(v) => Ok(v, rest) case Failed(why) => Err(why, rest)
  }

  method ReadPort(r: Conn, fqdn: bytes, ip: bytes) returns (res: Outcome<AddrSpec>)
    requires r.Valid()
    modifies r`chunks
    ensures r.Valid() && Answered(res, r.Incoming()) == ParsePort(fqdn, ip, old(r.Incoming()))
  {
    var port, ok := r.ReadFull(2);
    if !ok {
      return Failed(TooShort);
    }
    return Done(AddrSpec(fqdn, ip, PortOf(port)));
  }

  /** An address of `n` bytes and a port. */
  method ReadIp(r: Conn, n: nat) returns (res: Outcome<AddrSpec>)
    requires r.Valid()
    modifies r`chunks
    ensures r.Valid() && Answered(res, r.Incoming()) == ParseIp(old(r.Incoming()), n)
  {
    var ip, ok := r.ReadFull(n);
    if !ok {
      return Failed(TooShort);
    }
    res := ReadPort(r, [], ip);
  }

  /** A length byte, a name of that length and a port. */
  method ReadName(r: Conn) returns (res: Outcome<AddrSpec>)
    requires r.Valid()
    modifies r`chunks
    ensures r.Valid() && Answered(res, r.Incoming()) == ParseName(old(r.Incoming()))
  {
    var len, ok := r.Read(1);
    if !ok {
      return Failed(TooShort);
    }
    assert old(r.Incoming())[1..] == r.Incoming();
    var name;
    name, ok := r.ReadFull(len[0]);
    if !ok {
      return Failed(TooShort);
    }
    res := ReadPort(r, name, []);
  }

  /** However the bytes are cut into chunks, the outcome and what is left are those of ParseAddr. */
  method ReadAddrSpec(r: Conn) returns (res: Outcome<AddrSpec>)
    requires r.Valid()
    modifies r`chunks
    ensures r.Valid() && Answered(res, r.Incoming()) == ParseAddr(old(r.Incoming()))
  {
    var addrType, ok := r.Read(1);
    if !ok {
      return Failed(TooShort);
    }
    assert old(r.Incoming())[1..] == r.Incoming();
    if addrType[0] == IPV4 {
      res := ReadIp(r, 4);
    } else if addrType[0] == IPV6 {
      res := ReadIp(r, 16);
    } else if addrType[0] == FQDN {
      res := ReadName(r);
    } else {
      res := Failed(UnknownType);
    }
  }

  method ReadDestAddr(r: Conn) returns (res: Outcome<AddrSpec>)
    requires r.Valid()
    modifies r`chunks
    ensures r.Valid() && Answered(res, r.Incoming()) == ParseDest(old(r.Incoming()))
  {
    var header, ok := r.ReadFull(3);
    if !ok {
      return Failed(TooShort);
    }
    if header[0] != VERSION {
      return Failed(BadVersion(header[0]));
    }
    res := ReadAddrSpec(r);
  }

  method ReadPassword(conn: Conn, user: bytes) returns (res: Outcome<Login>)
    requires conn.Valid()
    modifies conn`chunks
    ensures conn.Valid() && Answered(res, conn.Incoming()) == ParsePassword(user, old(conn.Incoming()))
  {
    var len, ok := conn.Read(1);
    if !ok {
      return Failed(TooShort);
    }
    assert old(conn.Incoming())[1..] == conn.Incoming();
    var pass;
    pass, ok := conn.ReadFull(len[0]);
    if !ok {
      return Failed(TooShort);
    }
    return Done(Login(user, pass));
  }

  /** Announces the method and reads the login; again the chunks make no difference. */
  method GetUserPassword(conn: Conn) returns (res: Outcome<Login>)
    requires conn.Valid()
    modifies conn
    ensures conn.Valid() && Answered(res, conn.Incoming()) == ParseLogin(old(conn.Incoming()))
    ensures conn.written == old(conn.written) + [5, 2]
  {
    conn.Write([VERSION, USER_PASS_AUTH]);
    var header, ok := conn.ReadFull(2);
    if !ok {
      return Failed(TooShort);
    }
    if header[0] != USER_AUTH_VERSION {
      return Failed(BadVersion(header[0]));
    }
    var user;
    user, ok := conn.ReadFull(header[1]);
    if !ok {
      return Failed(TooShort);
    }
    res := ReadPassword(conn, user);
  }

  /** Lays out a message: version, reply, a zero, the kind and body of the address, the port. */
  method Layout(resp: byte, addrType: byte, addrBody: bytes, addrPort: u16) returns (msg: array<byte>)
    ensures fresh(msg) && msg[..] == [5, resp, 0, addrType] + addrBody + [addrPort / 256, addrPort % 256]
  {
    var n := |addrBody|;
    msg := new byte[6 + n];
    msg[0], msg[1], msg[2], msg[3] := VERSION, resp, 0, addrType;
    for i := 0 to n
      invariant msg[..4] == [VERSION, resp, 0, addrType]
      invariant msg[4..4 + i] == addrBody[..i]
    {
      msg[4 + i] := addrBody[i];
    }
    msg[4 + n] := addrPort / 0x100;
    msg[4 + n + 1] := addrPort % 0x100;
    assert msg[..] == msg[..4] + msg[4..4 + n] + [msg[4 + n], msg[4 + n + 1]];
  }

  /** Picks kind, body and port for an address; false if it has no form. */
  method ChooseForm(addr: Option<AddrSpec>) returns (ok: bool, addrType: byte, addrBody: bytes, addrPort: u16)
    ensures ok <==> Normal(addr).Some?
    ensures ok ==> var a := Normal(addr).value;
      addrType == Kind(a) && addrBody == Body(a) && addrPort == a.port % 0x1_0000
  {
    if addr.None? {
      return true, IPV4, [0, 0, 0, 0], 0;
    }
    var a := addr.value;
    addrPort := a.port % 0x1_0000;
    if a.fqdn != [] {
      return true, FQDN, [|a.fqdn| % 0x100] + a.fqdn, addrPort;
    } else if To4(a.ip).Some? {
      return true, IPV4, To4(a.ip).value, addrPort;
    } else if To16(a.ip).Some? {
      return true, IPV6, To16(a.ip).value, addrPort;
    }
    return false, 0, [], 0;
  }

  /** Writes the reply in one piece, and nothing if the address has no form. */
  method SendReply(r: Conn, resp: byte, addr: Option<AddrSpec>) returns (ok: bool)
    modifies r`written
    ensures ok <==> Reply(resp, addr).Some?
    ensures r.written == old(r.written) + if ok then Reply(resp, addr).value else []
    ensures ReplyBytes(if ok then Some(r.written[|old(r.written)|..]) else None, resp, addr)
  {
    ReplyInBytes(resp, addr);
    var addrType, addrBody, addrPort;
    ok, addrType, addrBody, addrPort := ChooseForm(addr);
    if !ok {
      return false;
    }
    var msg := Layout(resp, addrType, addrBody, addrPort);
    assert msg[..] == [VERSION, resp, 0] + ([addrType] + addrBody + Be16(addrPort));
    r.Write(msg[..]);
  }
}
