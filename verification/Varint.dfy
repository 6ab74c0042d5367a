/** QUIC variable-length integers (section 16 of RFC 9000). */
module Varint {
  import opened Bytes

  type Varint62 = x: int | 0 <= x < 0x4000_0000_0000_0000 witness 0

  datatype Read = Read(value: Varint62, used: nat)

  function Length(v: Varint62): nat {
    if v < 64 then 1 else if v < 16384 then 2 else if v < 1_073_741_824 then 4 else 8
  }

  /** Big-endian in the shortest of four widths, the width in the top two bits. */
  function Put(v: Varint62): (b: seq<Byte>)
    ensures |b| == Length(v)
  {
    if v < 64 then [v]
    else if v < 16384 then Be16(v + 0x4000)
    else if v < 1_073_741_824 then Be32(v + 0x8000_0000)
    else Be32(v / 0x1_0000_0000 + 0xC000_0000) + Be32(v % 0x1_0000_0000)
  }

  function LengthFromFirst(first: Byte): nat {
    if first < 64 then 1 else if first < 128 then 2 else if first < 192 then 4 else 8
  }

  function Get(b: seq<Byte>): (r: Option<Read>)
    ensures r.Some? ==> 1 <= r.value.used <= |b|
  {
    if b == [] || |b| < LengthFromFirst(b[0]) then None
    else
      var n := LengthFromFirst(b[0]);
      var v :=
        if n == 1 then b[0]
        else if n == 2 then FromBe16(b[0], b[1]) % 0x4000
        else if n == 4 then FromBe32(b[0], b[1], b[2], b[3]) % 0x4000_0000
        else (FromBe32(b[0], b[1], b[2], b[3]) % 0x4000_0000) * 0x1_0000_0000 + FromBe32(b[4], b[5], b[6], b[7]);
      Some(Read(v, n))
  }

  /** The four bytes a sequence starts with, as a number. */
  predicate StartsWith32(b: seq<Byte>, w: U32) {
    |b| >= 4 && FromBe32(b[0], b[1], b[2], b[3]) == w
  }

  lemma Get4(b: seq<Byte>, v: U32)
    requires v < 0x4000_0000 && StartsWith32(b, v + 0x8000_0000)
    ensures Get(b) == Some(Read(v, 4))
  {
    assert 128 <= b[0] < 192;
    assert (v + 0x8000_0000) % 0x4000_0000 == v;
  }

  lemma Get8(b: seq<Byte>, hi: U32, lo: U32)
    requires hi < 0x4000_0000 && StartsWith32(b, hi + 0xC000_0000) && StartsWith32(b[4..], lo)
    ensures Get(b) == Some(Read(hi * 0x1_0000_0000 + lo, 8))
  {
    assert 192 <= b[0];
    assert (hi + 0xC000_0000) % 0x4000_0000 == hi;
    assert b[4..][0] == b[4] && b[4..][1] == b[5] && b[4..][2] == b[6] && b[4..][3] == b[7];
  }

  lemma Be32InFront(v: U32, rest: seq<Byte>)
    ensures StartsWith32(Be32(v) + rest, v)
    ensures (Be32(v) + rest)[4..] == rest
  {
    Be32RoundTrip(v);
    var s, b := Be32(v), Be32(v) + rest;
    assert b[0] == s[0] && b[1] == s[1] && b[2] == s[2] && b[3] == s[3];
  }

  lemma RoundTrip12(v: U16, rest: seq<Byte>)
    requires v < 16384
    ensures Get(Put(v) + rest) == Some(Read(v, Length(v)))
  {
    if v >= 64 {
      assert 64 <= (v + 0x4000) / 0x100 < 128;
    }
  }

  lemma RoundTrip8(hi: U32, lo: U32, rest: seq<Byte>)
    requires hi < 0x4000_0000
    ensures Get(Be32(hi + 0xC000_0000) + Be32(lo) + rest) == Some(Read(hi * 0x1_0000_0000 + lo, 8))
  {
    var a, c := Be32(hi + 0xC000_0000), Be32(lo);
    ConcatAssociative(a, c, rest);
    Be32InFront(hi + 0xC000_0000, c + rest);
    Be32InFront(lo, rest);
    Get8(a + (c + rest), hi, lo);
  }

  /** Reading back what was written, whatever follows. */
  lemma RoundTrip(v: Varint62, rest: seq<Byte>)
    ensures Get(Put(v) + rest) == Some(Read(v, Length(v)))
  {
    if v < 16384 {
      RoundTrip12(v, rest);
    } else if v < 1_073_741_824 {
      Be32InFront(v + 0x8000_0000, rest);
      Get4(Be32(v + 0x8000_0000) + rest, v);
    } else {
      RoundTrip8(v / 0x1_0000_0000, v % 0x1_0000_0000, rest);
    }
  }

  /** A complete integer does not depend on what follows it. */
  lemma Stable(b: seq<Byte>, more: seq<Byte>)
    requires Get(b).Some?
    ensures Get(b + more) == Get(b)
  {
  }
}
