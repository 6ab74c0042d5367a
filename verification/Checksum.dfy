/** The Internet checksum (RFC 1071) as the packet builders compute it. */
module InternetChecksum {
  import opened Bytes

  /** The sum of the 16-bit words, the last odd byte padded with zero. */
  function SumWords(b: seq<Byte>): nat {
    if b == [] then 0
    else if |b| == 1 then b[0] * 0x100
    else FromBe16(b[0], b[1]) + SumWords(b[2..])
  }

  /** Add the carries back in until sixteen bits remain. */
  function Fold(sum: nat): U16
    decreases sum
  {
    if sum < 0x1_0000 then sum else Fold(sum % 0x1_0000 + sum / 0x1_0000)
  }

  function Checksum(b: seq<Byte>): U16 {
    0xFFFF - Fold(SumWords(b))
  }

  /** Folding is arithmetic modulo 65535 in which a non-zero sum is never represented by zero. */
  lemma {:induction false} FoldClosedForm(sum: nat)
    ensures Fold(sum) == if sum == 0 then 0 else (sum - 1) % 0xFFFF + 1
    decreases sum
  {
    if sum >= 0x1_0000 {
      var q, r := sum / 0x1_0000, sum % 0x1_0000;
      FoldClosedForm(r + q);
      assert sum - 1 == (r + q - 1) + 0xFFFF * q;
      ModAdd(r + q - 1, q);
    }
  }

  lemma ModAdd(x: nat, q: nat)
    ensures (x + 0xFFFF * q) % 0xFFFF == x % 0xFFFF
  {
  }

  // ---- the routines --------------------------------------------------------------------------

  /** What a routine with a 32-bit accumulator computes. */
  function Checksum32(b: seq<Byte>): U16 {
    0xFFFF - Fold(SumWords(b) % 0x1_0000_0000)
  }

  /** The exit probe's routine: an unfolded sum carried from piece to piece. */
  method SumInto(bytes: seq<Byte>, start: U32) returns (sum: U32)
    ensures sum == (start + SumWords(bytes)) % 0x1_0000_0000
  {
    sum := start;
    var i := 0;
    ghost var total: nat := start;
    assert bytes[0..] == bytes;
    while i + 1 < |bytes|
      invariant i <= |bytes| && total + SumWords(bytes[i..]) == start + SumWords(bytes)
      invariant sum == total % 0x1_0000_0000
    {
      assert bytes[i..][2..] == bytes[i + 2..];
      WrapAdd(total, FromBe16(bytes[i], bytes[i + 1]));
      total := total + FromBe16(bytes[i], bytes[i + 1]);
      sum := (sum + FromBe16(bytes[i], bytes[i + 1])) % 0x1_0000_0000;
      i := i + 2;
    }
    if i < |bytes| {
      WrapAdd(total, FromBe16(bytes[i], 0));
      sum := (sum + FromBe16(bytes[i], 0)) % 0x1_0000_0000;
    }
  }

  lemma WrapAdd(total: nat, word: nat)
    ensures (total % 0x1_0000_0000 + word) % 0x1_0000_0000 == (total + word) % 0x1_0000_0000
  {
  }

  /** ... and its fold. */
  method FoldDown(start: U32) returns (r: U16)
    ensures r == 0xFFFF - Fold(start)
  {
    var sum: nat := start;
    while sum >= 0x1_0000
      invariant Fold(sum) == Fold(start)
    {
      FoldOnce(sum);
      sum := sum % 0x1_0000 + sum / 0x1_0000;
    }
    return 0xFFFF - sum;
  }

  lemma FoldOnce(sum: nat)
    requires sum >= 0x1_0000
    ensures Fold(sum % 0x1_0000 + sum / 0x1_0000) == Fold(sum)
    ensures sum % 0x1_0000 + sum / 0x1_0000 < sum
  {
  }

  /** The tun2socks routine: sum, fold and complement in one call. */
  method OnesComplement(data: seq<Byte>) returns (r: U16)
    ensures r == Checksum32(data)
  {
    var sum: nat, i := 0, 0;
    ghost var total: nat := 0;
    assert data[0..] == data;
    while i + 1 < |data|
      invariant i <= |data| && total + SumWords(data[i..]) == SumWords(data)
      invariant sum == total % 0x1_0000_0000
    {
      assert data[i..][2..] == data[i + 2..];
      WrapAdd(total, FromBe16(data[i], data[i + 1]));
      total := total + FromBe16(data[i], data[i + 1]);
      sum := (sum + FromBe16(data[i], data[i + 1])) % 0x1_0000_0000;
      i := i + 2;
    }
    if i < |data| {
      WrapAdd(total, FromBe16(data[i], 0));
      sum := (sum + FromBe16(data[i], 0)) % 0x1_0000_0000;
    }
    ghost var whole := sum;
    while sum >= 0x1_0000
      invariant Fold(sum) == Fold(whole)
    {
      FoldOnce(sum);
      sum := sum % 0x1_0000 + sum / 0x1_0000;
    }
    return 0xFFFF - sum;
  }

  /** The MASQUE probe's routine for an IPv4 header. */
  method Ipv4HeaderChecksum(header: seq<Byte>) returns (r: U16)
    ensures r == Checksum32(header)
  {
    var sum: nat, i := 0, 0;
    ghost var total: nat := 0;
    assert header[0..] == header;
    while i + 1 < |header|
      invariant i <= |header| && total + SumWords(header[i..]) == SumWords(header)
      invariant sum == total % 0x1_0000_0000
    {
      assert header[i..][2..] == header[i + 2..];
      WrapAdd(total, FromBe16(header[i], header[i + 1]));
      total := total + FromBe16(header[i], header[i + 1]);
      sum := (sum + FromBe16(header[i], header[i + 1])) % 0x1_0000_0000;
      i := i + 2;
    }
    if i < |header| {
      WrapAdd(total, FromBe16(header[i], 0));
      sum := (sum + FromBe16(header[i], 0)) % 0x1_0000_0000;
    }
    ghost var whole := sum;
    while sum >= 0x1_0000
      invariant Fold(sum) == Fold(whole)
    {
      FoldOnce(sum);
      sum := sum % 0x1_0000 + sum / 0x1_0000;
    }
    return 0xFFFF - sum;
  }

  lemma {:induction false} SumBound(b: seq<Byte>)
    ensures SumWords(b) <= 0x8000 * (|b| + 1)
  {
    if |b| > 1 { SumBound(b[2..]); }
  }

  /** Any buffer shorter than 128 kilobytes is summed without overflow. */
  lemma ShortIsExact(b: seq<Byte>)
    requires |b| < 0x1_FFFF
    ensures SumWords(b) < 0x1_0000_0000 && Checksum32(b) == Checksum(b)
  {
    SumBound(b);
  }

  /** Exactly when the accumulator's width does not matter. */
  predicate WidthHarmless(sum: nat) {
    sum < 0x1_0000_0000 || (sum / 0x1_0000_0000 % 0xFFFF == 0 && sum % 0x1_0000_0000 != 0)
  }

  lemma WidthExactly(b: seq<Byte>)
    ensures Checksum32(b) == Checksum(b) <==> WidthHarmless(SumWords(b))
  {
    FoldWrapped(SumWords(b));
  }

  lemma FoldWrapped(sum: nat)
    ensures Fold(sum % 0x1_0000_0000) == Fold(sum) <==> WidthHarmless(sum)
  {
    var q, r := sum / 0x1_0000_0000, sum % 0x1_0000_0000;
    FoldClosedForm(sum);
    FoldClosedForm(r);
    if q > 0 && r > 0 {
      assert sum - 1 == (r - 1) + q + 0xFFFF * (0x1_0001 * q);
      ModAdd(r - 1 + q, 0x1_0001 * q);
      SameResidue(r - 1, q);
    }
  }

  lemma SameResidue(x: nat, q: nat)
    ensures (x + q) % 0xFFFF == x % 0xFFFF <==> q % 0xFFFF == 0
  {
    var a, b := x / 0xFFFF, x % 0xFFFF;
    var c, d := q / 0xFFFF, q % 0xFFFF;
    assert x + q == (b + d) + 0xFFFF * (a + c);
    ModAdd(b + d, a + c);
  }

  // ---- sums of pieces ------------------------------------------------------------------------

  lemma {:induction false} SumAppend(a: seq<Byte>, b: seq<Byte>)
    requires |a| % 2 == 0
    ensures SumWords(a + b) == SumWords(a) + SumWords(b)
    decreases |a|
  {
    if a == [] {
      assert a + b == b;
    } else {
      assert (a + b)[2..] == a[2..] + b;
      SumAppend(a[2..], b);
    }
  }

  /** A word stored at an even position. */
  function StoreWord(b: seq<Byte>, at: nat, w: U16): seq<Byte>
    requires at + 2 <= |b|
  {
    b[..at] + Be16(w) + b[at + 2..]
  }

  lemma SumBe16(w: U16)
    ensures SumWords(Be16(w)) == w
  {
    assert Be16(w)[2..] == [];
  }

  lemma SumSplit(a: seq<Byte>, w: U16, c: seq<Byte>)
    requires |a| % 2 == 0
    ensures SumWords(a + Be16(w) + c) == SumWords(a) + w + SumWords(c)
  {
    ConcatAssociative(a, Be16(w), c);
    SumAppend(a, Be16(w) + c);
    SumAppend(Be16(w), c);
    SumBe16(w);
  }

  lemma ZeroWord(b: seq<Byte>, at: nat)
    requires at + 2 <= |b| && b[at] == 0 && b[at + 1] == 0
    ensures b[..at] + Be16(0) + b[at + 2..] == b
  {
    assert Be16(0) == b[at..at + 2];
    assert b[..at] + b[at..at + 2] == b[..at + 2];
  }

  lemma StoreAdds(b: seq<Byte>, at: nat, w: U16)
    requires at % 2 == 0 && at + 2 <= |b| && b[at] == 0 && b[at + 1] == 0
    ensures SumWords(StoreWord(b, at, w)) == SumWords(b) + w
  {
    SumSplit(b[..at], w, b[at + 2..]);
    SumSplit(b[..at], 0, b[at + 2..]);
    ZeroWord(b, at);
  }

  /** A sum completed by its own checksum folds to all ones; so does one completed by 0xFFFF in place of
      a checksum of zero. */
  lemma CompletedSum(sum: nat, c: U16)
    requires c == 0xFFFF - Fold(sum) || (Fold(sum) == 0xFFFF && c == 0xFFFF)
    ensures Fold(sum + c) == 0xFFFF
  {
    FoldClosedForm(sum);
    FoldClosedForm(sum + c);
    if sum == 0 {
    } else if c == 0xFFFF - Fold(sum) {
      var q := (sum - 1) / 0xFFFF;
      assert sum + c - 1 == 0xFFFE + 0xFFFF * q;
      ModAdd(0xFFFE, q);
    } else {
      var q := (sum - 1) / 0xFFFF;
      assert sum + c - 1 == 0xFFFE + 0xFFFF * (q + 1);
      ModAdd(0xFFFE, q + 1);
    }
  }

  /** A checksum as it goes on the wire: UDP sends all ones for a computed zero. */
  predicate WireChecksum(b: seq<Byte>, c: U16, udp: bool) {
    c == if udp && Checksum(b) == 0 then 0xFFFF else Checksum(b)
  }

  /** Storing the checksum of a buffer in its zeroed, aligned field makes the buffer verify. */
  lemma StoredVerifies(b: seq<Byte>, at: nat, c: U16, udp: bool)
    requires at % 2 == 0 && at + 2 <= |b| && b[at] == 0 && b[at + 1] == 0
    requires WireChecksum(b, c, udp)
    ensures Checksum(StoreWord(b, at, c)) == 0
  {
    StoreAdds(b, at, c);
    CompletedSum(SumWords(b), c);
  }

  // ---- pseudo-headers ------------------------------------------------------------------------

  type Ip = a: seq<Byte> | |a| == 4 witness [0, 0, 0, 0]

  /** The IPv4 pseudo-header in front of a transport segment. */
  function Pseudo(src: Ip, dst: Ip, protocol: Byte, length: U16): (p: seq<Byte>)
    ensures |p| == 12
  {
    src + dst + [0, protocol] + Be16(length)
  }

  /** Summing the pseudo-header piece by piece, as the probe does, gives the sum of the assembled
      buffer, as tun2socks does. */
  lemma PiecewisePseudo(src: Ip, dst: Ip, protocol: Byte, length: U16, segment: seq<Byte>)
    ensures SumWords(Pseudo(src, dst, protocol, length) + segment)
         == SumWords(src + dst) + protocol + length + SumWords(segment)
  {
    var addresses := src + dst;
    assert [0, protocol] == Be16(protocol);
    SumAppend(Pseudo(src, dst, protocol, length), segment);
    SumAppend(addresses + Be16(protocol), Be16(length));
    SumAppend(addresses, Be16(protocol));
    SumBe16(protocol);
    SumBe16(length);
  }

  /** A TCP or UDP segment whose checksum field was filled from the pseudo-header sum verifies. */
  lemma SegmentVerifies(src: Ip, dst: Ip, protocol: Byte, length: U16, segment: seq<Byte>, at: nat, c: U16, udp: bool)
    requires at % 2 == 0 && at + 2 <= |segment| && segment[at] == 0 && segment[at + 1] == 0
    requires WireChecksum(Pseudo(src, dst, protocol, length) + segment, c, udp)
    ensures Checksum(Pseudo(src, dst, protocol, length) + StoreWord(segment, at, c)) == 0
  {
    var p := Pseudo(src, dst, protocol, length);
    StoredVerifies(p + segment, 12 + at, c, udp);
    assert StoreWord(p + segment, 12 + at, c) == p + StoreWord(segment, at, c);
  }
}
