/** Fixed-width integers and their big-endian byte form, as every wire format of the
    system writes them (QDataStream::BigEndian, ntohs/ntohl). */
module Bytes {

  type byte = x: int | 0 <= x < 0x100
  type u16 = x: int | 0 <= x < 0x1_0000
  type u32 = x: int | 0 <= x < 0x1_0000_0000
  type u64 = x: int | 0 <= x < 0x1_0000_0000_0000_0000
  type i32 = x: int | -0x8000_0000 <= x < 0x8000_0000

  function Min(a: int, b: int): int { if a <= b then a else b }

  /** How many values fit into n bytes. */
  function Pow256(n: nat): (r: nat)
    ensures r >= 1
  {
    if n == 0 then 1 else 256 * Pow256(n - 1)
  }

  lemma WidthConstants()
    ensures Pow256(1) == 0x100 && Pow256(2) == 0x1_0000 && Pow256(4) == 0x1_0000_0000
    ensures Pow256(8) == 0x1_0000_0000_0000_0000
  {
    assert Pow256(3) == 0x100_0000;
    assert Pow256(4) == 0x1_0000_0000;
    assert Pow256(6) == 0x1_0000_0000_0000;
  }

  /** The low n bytes of v, most significant first; higher bytes are cut off. */
  function BigEndian(n: nat, v: nat): (r: seq<byte>)
    ensures |r| == n
  {
    if n == 0 then [] else BigEndian(n - 1, v / 256) + [v % 256]
  }

  lemma OneByte(v: byte)
    ensures BigEndian(1, v) == [v]
  {
    assert BigEndian(0, v / 256) == [];
  }

  lemma DivideTwice(v: nat, p: nat)
    requires p > 0
    ensures 256 * p > 0 && v / 256 / p == v / (256 * p)
  {
    var q, r := v / (256 * p), v % (256 * p);
    assert v == 256 * (p * q) + r;
    assert v / 256 == p * q + r / 256;
    assert r / 256 < p;
    QuotientIs(v / 256, p, q, r / 256);
  }

  lemma QuotientIs(x: nat, p: nat, q: nat, r: nat)
    requires x == p * q + r && r < p
    ensures x / p == q
  {
    var d := x / p;
    assert x == p * d + x % p;
    if d < q {
      MultiplesApart(p, d, q);
    } else if d > q {
      MultiplesApart(p, q, d);
    }
  }

  lemma MultiplesApart(p: nat, a: nat, b: nat)
    requires a < b
    ensures p * a + p <= p * b
  {
    var k := b - a - 1;
    assert p * b == p * (a + 1 + k) == p * a + p + p * k;
  }

  /** Most significant byte first: byte i of n stands for the i-th digit from the left. */
  lemma {:induction false} BigEndianByteAt(n: nat, v: nat, i: nat)
    requires i < n
    ensures BigEndian(n, v)[i] == v / Pow256(n - 1 - i) % 256
  {
    if i < n - 1 {
      BigEndianByteAt(n - 1, v / 256, i);
      DivideTwice(v, Pow256(n - 2 - i));
    }
  }

  function FromBigEndian(s: seq<byte>): nat {
    if s == [] then 0 else FromBigEndian(s[..|s| - 1]) * 256 + s[|s| - 1]
  }

  lemma {:induction false} FromBigEndianBound(s: seq<byte>)
    ensures FromBigEndian(s) < Pow256(|s|)
  {
    if s != [] {
      FromBigEndianBound(s[..|s| - 1]);
    }
  }

  lemma {:induction false} BigEndianRoundTrip(n: nat, v: nat)
    requires v < Pow256(n)
    ensures FromBigEndian(BigEndian(n, v)) == v
  {
    if n > 0 {
      BigEndianRoundTrip(n - 1, v / 256);
      assert BigEndian(n, v)[..n - 1] == BigEndian(n - 1, v / 256);
    }
  }

  /** A signed 32-bit value travels as its two's complement bit pattern. */
  function ToUnsigned(x: i32): u32 {
    if x < 0 then x + 0x1_0000_0000 else x
  }

  function ToSigned(x: u32): i32 {
    if x >= 0x8000_0000 then x - 0x1_0000_0000 else x
  }
}

/** Reading from a QDataStream: a read past the end yields zero (or an empty array) and
    leaves nothing behind. */
module Stream {
  import opened Bytes

  datatype Read<T> = Read(value: T, rest: seq<byte>)

  function ReadUInt(n: nat, s: seq<byte>): (r: Read<nat>)
    ensures r.value < Pow256(n)
  {
    if |s| >= n then
      FromBigEndianBound(s[..n]);
      Read(FromBigEndian(s[..n]), s[n..])
    else
      Read(0, [])
  }

  function Read8(s: seq<byte>): Read<byte> {
    WidthConstants();
    var r := ReadUInt(1, s);
    Read(r.value, r.rest)
  }

  function Read16(s: seq<byte>): Read<u16> {
    WidthConstants();
    var r := ReadUInt(2, s);
    Read(r.value, r.rest)
  }

  function Read32(s: seq<byte>): Read<u32> {
    WidthConstants();
    var r := ReadUInt(4, s);
    Read(r.value, r.rest)
  }

  function Read64(s: seq<byte>): Read<u64> {
    WidthConstants();
    var r := ReadUInt(8, s);
    Read(r.value, r.rest)
  }

  lemma ReadByte(s: seq<byte>)
    requires s != []
    ensures Read8(s) == Read(s[0], s[1..])
  {
    assert s[..1] == [s[0]] && [s[0]][..0] == [];
  }

  lemma ReadBack(n: nat, v: nat, tail: seq<byte>)
    requires v < Pow256(n)
    ensures ReadUInt(n, BigEndian(n, v) + tail) == Read(v, tail)
  {
    BigEndianRoundTrip(n, v);
    var s := BigEndian(n, v) + tail;
    assert s[..n] == BigEndian(n, v);
    assert s[n..] == tail;
  }

  function Write8(v: byte): (r: seq<byte>) ensures |r| == 1 { BigEndian(1, v) }
  function Write16(v: u16): (r: seq<byte>) ensures |r| == 2 { BigEndian(2, v) }
  function Write32(v: u32): (r: seq<byte>) ensures |r| == 4 { BigEndian(4, v) }
  function Write64(v: u64): (r: seq<byte>) ensures |r| == 8 { BigEndian(8, v) }

  lemma ReadBack8(v: byte, tail: seq<byte>)
    ensures Read8(Write8(v) + tail) == Read(v, tail)
  {
    WidthConstants();
    ReadBack(1, v, tail);
  }

  lemma ReadBack16(v: u16, tail: seq<byte>)
    ensures Read16(Write16(v) + tail) == Read(v, tail)
  {
    WidthConstants();
    ReadBack(2, v, tail);
  }

  lemma ReadBack32(v: u32, tail: seq<byte>)
    ensures Read32(Write32(v) + tail) == Read(v, tail)
  {
    WidthConstants();
    ReadBack(4, v, tail);
  }

  lemma ReadBack64(v: u64, tail: seq<byte>)
    ensures Read64(Write64(v) + tail) == Read(v, tail)
  {
    WidthConstants();
    ReadBack(8, v, tail);
  }

  /** QByteArray in a stream: a 32-bit length, 0xFFFFFFFF standing for a null array, then
      the bytes; an array cut short reads as empty. */
  function WriteByteArray(data: seq<byte>): seq<byte>
    requires |data| < 0xFFFF_FFFF
  {
    Write32(|data|) + data
  }

  function ReadByteArray(s: seq<byte>): Read<seq<byte>> {
    var len := Read32(s);
    if len.value == 0xFFFF_FFFF then Read([], len.rest)
    else if |len.rest| < len.value then Read([], [])
    else Read(len.rest[..len.value], len.rest[len.value..])
  }

  lemma ReadBackByteArray(data: seq<byte>, tail: seq<byte>)
    requires |data| < 0xFFFF_FFFF
    ensures ReadByteArray(WriteByteArray(data) + tail) == Read(data, tail)
  {
    ReadBack32(|data|, data + tail);
    assert WriteByteArray(data) + tail == Write32(|data|) + (data + tail);
    assert (data + tail)[..|data|] == data;
    assert (data + tail)[|data|..] == tail;
  }
}
