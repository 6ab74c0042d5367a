/** The exit probe's UDP-in-IPv4 packets (RFC 768). */
module UdpPacket {
  import opened Bytes
  import opened InternetChecksum

  const UDP: Byte := 17

  /** The UDP payload of a packet from src:sport to dport, if it is one. */
  function UdpPayload(packet: seq<Byte>, src: Ip, sport: U16, dport: U16): Option<seq<Byte>> {
    if |packet| < 20 || packet[0] / 16 != 4 then None
    else
      var ihl: nat := packet[0] % 16 * 4;
      if ihl < 20 || |packet| < ihl + 8 || packet[9] != UDP then None
      else if FromBe16(packet[6], packet[7]) % 0x2000 != 0 then None
      else if packet[12..16] != src then None
      else
        var udp := packet[ihl..];
        if FromBe16(udp[0], udp[1]) != sport || FromBe16(udp[2], udp[3]) != dport then None
        else
          var len: nat := FromBe16(udp[4], udp[5]);
          if len < 8 || len > |udp| then None else Some(udp[8..len])
  }

  function IpHeader(total: U16, id: U16, src: Ip, dst: Ip): (h: seq<Byte>)
    ensures |h| == 20 && h[0] == 0x45 && h[9] == UDP
    ensures h[6] == 0 && h[7] == 0 && h[10] == 0 && h[11] == 0
    ensures h[12..16] == src && h[12..] == src + dst
  {
    [0x45, 0] + Be16(total) + Be16(id) + [0, 0, 64, UDP, 0, 0] + src + dst
  }

  function UdpSegment(sport: U16, dport: U16, length: U16, payload: seq<Byte>): (s: seq<Byte>)
    ensures |s| == 8 + |payload| && s[6] == 0 && s[7] == 0
    ensures FromBe16(s[0], s[1]) == sport && FromBe16(s[2], s[3]) == dport && FromBe16(s[4], s[5]) == length
    ensures s[8..] == payload
  {
    Be16(sport) + Be16(dport) + Be16(length) + [0, 0] + payload
  }

  /** The fields the receiver looks at, whatever the checksums and options. */
  predicate HeaderFor(header: seq<Byte>, src: Ip) {
    && 20 <= |header| <= 60 && header[0] == 0x40 + |header| / 4 && |header| % 4 == 0
    && header[9] == UDP && header[6] == 0 && header[7] == 0
    && header[12..16] == src
  }

  predicate SegmentFor(segment: seq<Byte>, sport: U16, dport: U16, length: U16, payload: seq<Byte>) {
    && |segment| == 8 + |payload| && segment[8..] == payload
    && FromBe16(segment[0], segment[1]) == sport && FromBe16(segment[2], segment[3]) == dport
    && FromBe16(segment[4], segment[5]) == length
  }

  /** What the receiver makes of the packet: the payload, if its length fits the 16-bit field. */
  lemma PayloadRecovered(header: seq<Byte>, segment: seq<Byte>, src: Ip, sport: U16, dport: U16, length: U16, payload: seq<Byte>)
    requires HeaderFor(header, src) && SegmentFor(segment, sport, dport, length, payload)
    requires length == |segment| <==> |segment| < 0x1_0000
    requires length <= |segment|
    ensures UdpPayload(header + segment, src, sport, dport) == Some(payload) <==> |segment| < 0x1_0000
  {
    var packet := header + segment;
    assert packet[|header|..] == segment;
    assert packet[12..16] == src;
    if length >= 8 {
      assert segment[8..length] == payload[..length - 8];
      assert length == |segment| ==> payload[..length - 8] == payload;
    }
  }

  /** A payload of 65528 bytes is announced with length zero, and refused. */
  lemma LongPayloadIsLost(header: seq<Byte>, segment: seq<Byte>, src: Ip, sport: U16, dport: U16, payload: seq<Byte>)
    requires |payload| == 65528
    requires HeaderFor(header, src) && SegmentFor(segment, sport, dport, (8 + |payload|) % 0x1_0000, payload)
    ensures UdpPayload(header + segment, src, sport, dport) == None
  {
    var packet := header + segment;
    assert packet[|header|..] == segment;
    assert packet[12..16] == src;
  }

  /** A packet belongs to one flow at most: whoever reads a payload from it reads the same one, as the same
      sender and ports; and no other protocol and no later fragment is read at all. */
  lemma OneFlow(packet: seq<Byte>, src: Ip, sport: U16, dport: U16, src': Ip, sport': U16, dport': U16)
    requires UdpPayload(packet, src, sport, dport).Some?
    ensures UdpPayload(packet, src', sport', dport').Some? <==> src' == src && sport' == sport && dport' == dport
    ensures packet[9] == UDP && FromBe16(packet[6], packet[7]) % 0x2000 == 0
    ensures |UdpPayload(packet, src, sport, dport).value| + 28 <= |packet|
  {
  }

  /** The IPv4 header with its checksum filled in. */
  method StampHeader(total: U16, id: U16, src: Ip, dst: Ip) returns (stamped: seq<Byte>)
    ensures |stamped| == 20 && Checksum(stamped) == 0
    ensures forall i :: 0 <= i < 20 && i != 10 && i != 11 ==> stamped[i] == IpHeader(total, id, src, dst)[i]
  {
    var header := IpHeader(total, id, src, dst);
    ShortIsExact(header);
    var sum := SumInto(header, 0);
    var csum := FoldDown(sum);
    StoredVerifies(header, 10, csum, false);
    return StoreWord(header, 10, csum);
  }

  /** The sum over addresses, protocol, length and segment; it fits for every length that does. */
  method PseudoSum(src: Ip, dst: Ip, segment: seq<Byte>) returns (sum: U32)
    ensures |segment| < 0x1_0000 ==> sum == SumWords(src + dst) + UDP as nat + |segment| + SumWords(segment)
  {
    sum := SumInto(src + dst, 0);
    sum := (sum + UDP as nat) % 0x1_0000_0000;
    sum := (sum + |segment|) % 0x1_0000_0000;
    SumBound(src + dst);
    SumBound(segment);
    sum := SumInto(segment, sum);
  }

  /** The UDP segment with its checksum filled in from the pseudo-header, zero sent as all ones. */
  method FillSegment(src: Ip, dst: Ip, segment: seq<Byte>) returns (filled: seq<Byte>)
    requires 8 <= |segment| && segment[6] == 0 && segment[7] == 0
    ensures |filled| == |segment|
    ensures forall i :: 0 <= i < |segment| && i != 6 && i != 7 ==> filled[i] == segment[i]
    ensures FromBe16(filled[6], filled[7]) != 0
    ensures |segment| < 0x1_0000 ==> Checksum(Pseudo(src, dst, UDP, |segment|) + filled) == 0
  {
    var sum := PseudoSum(src, dst, segment);
    var csum := FoldDown(sum);
    if csum == 0 { csum := 0xFFFF; }
    if |segment| < 0x1_0000 {
      assert WireChecksum(Pseudo(src, dst, UDP, |segment|) + segment, csum, true) by {
        PiecewisePseudo(src, dst, UDP, |segment|, segment);
      }
      SegmentVerifies(src, dst, UDP, |segment|, segment, 6, csum, true);
    }
    filled := StoreWord(segment, 6, csum);
    assert filled[6] == Be16(csum)[0] && filled[7] == Be16(csum)[1];
  }

  /** Both checksums verify, and the payload comes back exactly when its length fits: beyond 65527 bytes
      the length field is truncated. */
  method Build(src: Ip, dst: Ip, sport: U16, dport: U16, id: U16, payload: seq<Byte>) returns (pkt: seq<Byte>)
    ensures |pkt| == 28 + |payload|
    ensures Checksum(pkt[..20]) == 0
    ensures |payload| + 8 < 0x1_0000 ==> Checksum(Pseudo(src, dst, UDP, |payload| + 8) + pkt[20..]) == 0
    ensures UdpPayload(pkt, src, sport, dport) == Some(payload) <==> |payload| + 8 < 0x1_0000
  {
    var udpLen := 8 + |payload|;
    ghost var plain := IpHeader((20 + udpLen) % 0x1_0000, id, src, dst);
    var header := StampHeader((20 + udpLen) % 0x1_0000, id, src, dst);
    assert header[12..16] == plain[12..16];
    var segment := UdpSegment(sport, dport, udpLen % 0x1_0000, payload);
    var filled := FillSegment(src, dst, segment);
    assert filled[8..] == segment[8..];
    pkt := header + filled;
    assert pkt[..20] == header && pkt[20..] == filled;
    PayloadRecovered(header, filled, src, sport, dport, udpLen % 0x1_0000, payload);
  }
}
