/** IP packets inside HTTP datagrams (section 2.1 of RFC 9297, section 6 of RFC 9484). */
module Datagrams {
  import opened Bytes
  import V = Varint

  const CONTEXT_ID: V.Varint62 := 0

  type StreamId = x: int | 0 <= x < 0x1_0000_0000_0000_0000 witness 0

  function QuarterStreamId(streamId: StreamId): V.Varint62 {
    streamId / 4
  }

  function EncodeIp(streamId: StreamId, packet: seq<Byte>): seq<Byte> {
    V.Put(QuarterStreamId(streamId)) + (V.Put(CONTEXT_ID) + packet)
  }

  /** A packet; a datagram that is not ours; or one too short to tell. */
  datatype Decoded = Packet(bytes: seq<Byte>) | NotOurs | TooShort

  function DecodeIp(datagram: seq<Byte>, streamId: StreamId): Decoded {
    match V.Get(datagram)
    case None => TooShort
    case Some(id) =>
      if id.value != QuarterStreamId(streamId) then NotOurs
      else match V.Get(datagram[id.used..])
        case None => TooShort
        case Some(context) =>
          if context.value != CONTEXT_ID then NotOurs
          else Packet(datagram[id.used + context.used..])
  }

  /** Decoding inverts encoding for a stream with the same quarter id and rejects every other. */
  lemma DecodeInvertsEncode(streamId: StreamId, ours: StreamId, packet: seq<Byte>)
    ensures DecodeIp(EncodeIp(streamId, packet), ours)
         == if QuarterStreamId(streamId) == QuarterStreamId(ours) then Packet(packet) else NotOurs
  {
    var id := QuarterStreamId(streamId);
    var d, rest := EncodeIp(streamId, packet), V.Put(CONTEXT_ID) + packet;
    V.RoundTrip(id, rest);
    assert d[V.Length(id)..] == rest;
    V.RoundTrip(CONTEXT_ID, packet);
    assert d[V.Length(id) + 1..] == packet;
  }

  predicate LooksLikeIp(data: seq<Byte>) {
    |data| >= 20 && (data[0] / 16 == 4 || data[0] / 16 == 6)
  }

  /** Undo an optional context id in front of a packet. */
  function Strip(payload: seq<Byte>): Option<seq<Byte>> {
    if payload == [] then None
    else
      var context := V.Get(payload);
      if context.Some? && context.value.value == CONTEXT_ID && LooksLikeIp(payload[context.value.used..])
      then Some(payload[context.value.used..])
      else if LooksLikeIp(payload) then Some(payload)
      else None
  }

  /** A context id of zero in front of a packet is always removed. */
  lemma StripRemovesContext(packet: seq<Byte>)
    requires LooksLikeIp(packet)
    ensures Strip(V.Put(CONTEXT_ID) + packet) == Some(packet)
  {
    V.RoundTrip(CONTEXT_ID, packet);
    assert (V.Put(CONTEXT_ID) + packet)[1..] == packet;
  }

  /** A bare packet comes back unchanged, except exactly when its first two bytes 0x40 0x00, an IPv4
      header of zero length, read as a two-byte zero and what follows looks like a packet too. */
  lemma StripKeepsBareExactly(packet: seq<Byte>)
    requires LooksLikeIp(packet)
    ensures Strip(packet) == Some(packet) <==> !(packet[0] == 0x40 && packet[1] == 0 && LooksLikeIp(packet[2..]))
  {
    var first := packet[0];
    assert 0x40 <= first < 0x50 || 0x60 <= first < 0x70;
    assert V.Get(packet) == Some(V.Read(FromBe16(first, packet[1]) % 0x4000, 2));
    assert FromBe16(first, packet[1]) % 0x4000 == FromBe16(first, packet[1]) - 0x4000;
  }

  /** Such a packet: an IPv4 first byte with a zero header length, then an IPv6 packet's first byte. */
  lemma BarePacketIsCut(tail: seq<Byte>)
    requires |tail| >= 19
    ensures var packet := [0x40, 0x00, 0x60] + tail;
            LooksLikeIp(packet) && Strip(packet) == Some([0x60] + tail)
  {
    var packet := [0x40, 0x00, 0x60] + tail;
    assert V.Get(packet) == Some(V.Read(0, 2));
    assert packet[2..] == [0x60] + tail;
  }

  /** So every IPv6 packet, and every IPv4 packet with a header length of five words or more, is
      recovered from both forms. */
  lemma BothFormsRecovered(packet: seq<Byte>)
    requires |packet| >= 20
    requires packet[0] / 16 == 6 || (packet[0] / 16 == 4 && packet[0] % 16 >= 5)
    ensures Strip(packet) == Some(packet)
    ensures Strip([0] + packet) == Some(packet)
  {
    StripKeepsBareExactly(packet);
    StripRemovesContext(packet);
  }
}
