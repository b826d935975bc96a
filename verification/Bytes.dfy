/**
 Byte strings and the primitive reads of a byte cursor.

 A read either gets stuck, because the input is too short, or yields a value and the
 bytes after it. Each read comes with the write it inverts.
 */
module Bytes {
  type byte = b: int | 0 <= b < 256
  type u16 = n: int | 0 <= n < 0x1_0000
  type u32 = n: int | 0 <= n < 0x1_0000_0000
  type bytes = seq<byte>

  datatype Parsed<+T> = Stuck | Got(value: T, rest: bytes)

  /** Big-endian encodings. */
  function Be16(n: u16): bytes {
    [n / 0x100, n % 0x100]
  }

  function Be32(n: u32): bytes {
    Be16(n / 0x1_0000) + Be16(n % 0x1_0000)
  }

  /** A byte string behind its own length; the length is cut to the width of the prefix. */
  function Prefixed8(b: bytes): bytes {
    [|b| % 0x100] + b
  }

  function Prefixed16(b: bytes): bytes {
    Be16(|b| % 0x1_0000) + b
  }

  function ReadBytes(s: bytes, n: nat): (r: Parsed<bytes>)
    ensures r.Got? <==> n <= |s|
    ensures r.Got? ==> |r.value| == n && r.value + r.rest == s
  {
    if |s| < n then Stuck else Got(s[..n], s[n..])
  }

  function ReadU8(s: bytes): Parsed<byte> {
    if |s| < 1 then Stuck else Got(s[0], s[1..])
  }

  function ReadU16(s: bytes): Parsed<u16> {
    if |s| < 2 then Stuck else Got(s[0] as int * 0x100 + s[1], s[2..])
  }

  function ReadU32(s: bytes): Parsed<u32> {
    if |s| < 4 then Stuck
    else Got(ReadU16(s).value as int * 0x1_0000 + ReadU16(s[2..]).value, s[4..])
  }

  function ReadPrefixed8(s: bytes): Parsed<bytes> {
    match ReadU8(s)
    case Stuck => Stuck
    case Got(n, rest) => ReadBytes(rest, n)
  }

  function ReadPrefixed16(s: bytes): Parsed<bytes> {
    match ReadU16(s)
    case Stuck => Stuck
    case Got(n, rest) => ReadBytes(rest, n)
  }

  /** Reading what was written gives it back and leaves what followed. */
  lemma WriteRead16(n: u16, rest: bytes)
    ensures ReadU16(Be16(n) + rest) == Got(n, rest)
  {
    assert (Be16(n) + rest)[2..] == rest;
  }

  lemma WriteRead32(n: u32, rest: bytes)
    ensures ReadU32(Be32(n) + rest) == Got(n, rest)
  {
    var hi, lo := n / 0x1_0000, n % 0x1_0000;
    assert Be32(n) + rest == Be16(hi) + (Be16(lo) + rest);
    WriteRead16(hi, Be16(lo) + rest);
    WriteRead16(lo, rest);
  }

  lemma WriteReadBytes(b: bytes, rest: bytes)
    ensures ReadBytes(b + rest, |b|) == Got(b, rest)
  {
    assert (b + rest)[..|b|] == b && (b + rest)[|b|..] == rest;
  }

  lemma WriteReadPrefixed8(b: bytes, rest: bytes)
    requires |b| < 0x100
    ensures ReadPrefixed8(Prefixed8(b) + rest) == Got(b, rest)
  {
    assert (Prefixed8(b) + rest)[1..] == b + rest;
    WriteReadBytes(b, rest);
  }

  lemma WriteReadPrefixed16(b: bytes, rest: bytes)
    requires |b| < 0x1_0000
    ensures ReadPrefixed16(Prefixed16(b) + rest) == Got(b, rest)
  {
    var s := b + rest;
    assert Prefixed16(b) + rest == Be16(|b|) + s;
    WriteRead16(|b|, s);
    assert ReadU16(Prefixed16(b) + rest) == Got(|b|, s);
    WriteReadBytes(b, rest);
  }

  /** What a read consumed is what a write of its value produces. */
  lemma ReadWrite16(s: bytes)
    requires ReadU16(s).Got?
    ensures Be16(ReadU16(s).value) + ReadU16(s).rest == s
  {
  }

  lemma ReadWrite32(s: bytes)
    requires ReadU32(s).Got?
    ensures Be32(ReadU32(s).value) + ReadU32(s).rest == s
  {
    var hi, lo := ReadU16(s).value, ReadU16(s[2..]).value;
    assert ReadU32(s).value / 0x1_0000 == hi && ReadU32(s).value % 0x1_0000 == lo;
    ReadWrite16(s);
    ReadWrite16(s[2..]);
    assert Be16(hi) + (Be16(lo) + s[4..]) == Be32(ReadU32(s).value) + s[4..];
  }

  lemma ReadWritePrefixed8(s: bytes)
    requires ReadPrefixed8(s).Got?
    ensures |ReadPrefixed8(s).value| < 0x100
    ensures Prefixed8(ReadPrefixed8(s).value) + ReadPrefixed8(s).rest == s
  {
  }

  lemma ReadWritePrefixed16(s: bytes)
    requires ReadPrefixed16(s).Got?
    ensures |ReadPrefixed16(s).value| < 0x1_0000
    ensures Prefixed16(ReadPrefixed16(s).value) + ReadPrefixed16(s).rest == s
  {
    ReadWrite16(s);
    var b, rest := ReadPrefixed16(s).value, ReadPrefixed16(s).rest;
    assert Prefixed16(b) + rest == Be16(|b|) + (b + rest);
  }
}
