/** The AnyTLS frame: one command byte, a stream id, a 16-bit length and a body. */
module Frames {
  import opened Bytes

  const WASTE: Byte := 0
  const SYN: Byte := 1
  const PSH: Byte := 2
  const FIN: Byte := 3
  const SETTINGS: Byte := 4
  const ALERT: Byte := 5
  const UPDATE_PADDING: Byte := 6
  const SYNACK: Byte := 7
  const SERVER_SETTINGS: Byte := 10

  const HEADER: nat := 7

  datatype Frame = Frame(cmd: Byte, sid: U32, data: seq<Byte>)

  /** The commands for which the receiver reads a body after the header. */
  predicate CarriesBody(cmd: Byte) {
    cmd == PSH || cmd == SYNACK || cmd == WASTE || cmd == SETTINGS || cmd == ALERT
    || cmd == UPDATE_PADDING || cmd == SERVER_SETTINGS
  }

  function Header(cmd: Byte, sid: U32, len: U16): (h: seq<Byte>)
    ensures |h| == HEADER
  {
    [cmd] + Be32(sid) + Be16(len)
  }

  /** What the sender puts in front of the connection: the length is cast to 16 bits. */
  function Encode(f: Frame): (b: seq<Byte>)
    ensures |b| == HEADER + |f.data|
  {
    Header(f.cmd, f.sid, |f.data| % 0x1_0000) + f.data
  }

  datatype Parsed = NeedMore | Got(frame: Frame, used: nat)

  /** One turn of the receive loop's framing: a header, then the body the command carries. */
  function ParseOne(b: seq<Byte>): (p: Parsed)
    ensures p.Got? ==> HEADER <= p.used <= |b|
  {
    if |b| < HEADER then NeedMore
    else
      var cmd := b[0];
      var sid := FromBe32(b[1], b[2], b[3], b[4]);
      var len := FromBe16(b[5], b[6]);
      if !CarriesBody(cmd) then Got(Frame(cmd, sid, []), HEADER)
      else if |b| < HEADER + len then NeedMore
      else Got(Frame(cmd, sid, b[HEADER..HEADER + len]), HEADER + len)
  }

  datatype Stream = Stream(frames: seq<Frame>, rest: seq<Byte>)

  /** All complete frames of a byte stream, and the incomplete tail. */
  function ParseAll(b: seq<Byte>): Stream
    decreases |b|
  {
    match ParseOne(b)
    case NeedMore => Stream([], b)
    case Got(f, used) =>
      var more := ParseAll(b[used..]);
      Stream([f] + more.frames, more.rest)
  }

  lemma ParseOneStable(b: seq<Byte>, more: seq<Byte>)
    requires ParseOne(b).Got?
    ensures ParseOne(b + more) == ParseOne(b)
    ensures (b + more)[ParseOne(b).used..] == b[ParseOne(b).used..] + more
  {
    var used := ParseOne(b).used;
    assert (b + more)[HEADER..used] == b[HEADER..used];
  }

  /** Framing is independent of how the byte stream is cut into reads. */
  lemma {:induction false} ParseAllAppend(a: seq<Byte>, b: seq<Byte>)
    ensures var pa := ParseAll(a);
            var pb := ParseAll(pa.rest + b);
            ParseAll(a + b) == Stream(pa.frames + pb.frames, pb.rest)
    decreases |a|
  {
    match ParseOne(a)
    case NeedMore =>
    case Got(f, used) =>
      ParseOneStable(a, b);
      ParseAllAppend(a[used..], b);
      var tail := ParseAll(a[used..]);
      ConcatAssociative([f], tail.frames, ParseAll(tail.rest + b).frames);
  }

  /** A frame the receiver can read back. */
  predicate WellFormed(f: Frame) {
    if CarriesBody(f.cmd) then |f.data| < 0x1_0000 else f.data == []
  }

  lemma HeaderFields(cmd: Byte, sid: U32, len: U16, body: seq<Byte>)
    ensures var b := Header(cmd, sid, len) + body;
            && b[0] == cmd
            && FromBe32(b[1], b[2], b[3], b[4]) == sid
            && FromBe16(b[5], b[6]) == len
            && b[HEADER..] == body
  {
    Be32RoundTrip(sid);
    var h := Header(cmd, sid, len);
    assert forall i :: 0 <= i < 4 ==> h[1 + i] == Be32(sid)[i];
    assert h[5] == Be16(len)[0] && h[6] == Be16(len)[1];
  }

  /** What the receiver makes of a header announcing `len` in front of `body`. */
  lemma ParseHeaderBody(cmd: Byte, sid: U32, len: U16, body: seq<Byte>)
    ensures var b := Header(cmd, sid, len) + body;
            ParseOne(b) == if !CarriesBody(cmd) then Got(Frame(cmd, sid, []), HEADER)
                           else if |body| < len then NeedMore
                           else Got(Frame(cmd, sid, body[..len]), HEADER + len)
    ensures len <= |body| ==> (Header(cmd, sid, len) + body)[HEADER + len..] == body[len..]
  {
    HeaderFields(cmd, sid, len, body);
    var b := Header(cmd, sid, len) + body;
    if len <= |body| {
      assert b[HEADER..HEADER + len] == body[..len];
      assert b[HEADER + len..] == body[len..];
    }
  }

  /** Exactly the commands 0, 2, 4 to 7 and 10 are read with their bodies; any other leaves its body behind
      as the start of the next frame. */
  lemma BodiesRead(cmd: Byte, sid: U32, data: seq<Byte>)
    requires |data| < 0x1_0000
    ensures ParseOne(Header(cmd, sid, |data|) + data) ==
            if cmd == 0 || cmd == 2 || 4 <= cmd <= 7 || cmd == 10 then Got(Frame(cmd, sid, data), HEADER + |data|)
            else Got(Frame(cmd, sid, []), HEADER)
  {
    assert CarriesBody(cmd) <==> cmd == 0 || cmd == 2 || 4 <= cmd <= 7 || cmd == 10;
    assert data[..|data|] == data;
    ParseHeaderBody(cmd, sid, |data|, data);
  }

  /** The codec is a round trip on exactly the well-formed frames: the 16-bit cast breaks a longer
      body, and a body on a command that carries none is never skipped. */
  lemma RoundTripExactly(f: Frame, more: seq<Byte>)
    ensures ParseOne(Encode(f) + more) == Got(f, |Encode(f)|) <==> WellFormed(f)
  {
    RoundTripAt(f, |f.data| % 0x1_0000, more);
  }

  lemma RoundTripAt(f: Frame, len: U16, more: seq<Byte>)
    requires len == |f.data| <==> |f.data| < 0x1_0000
    requires len <= |f.data|
    ensures ParseOne(Header(f.cmd, f.sid, len) + f.data + more) == Got(f, HEADER + |f.data|) <==> WellFormed(f)
  {
    ParseHeaderBody(f.cmd, f.sid, len, f.data + more);
    ConcatAssociative(Header(f.cmd, f.sid, len), f.data, more);
    assert (f.data + more)[..len] == f.data[..len];
  }

  /** A body of 65536 bytes announces none: the receiver reads an empty frame and takes the body for
      frames of its own. */
  lemma LongBodyIsCut(sid: U32, data: seq<Byte>)
    requires |data| == 0x1_0000
    ensures ParseOne(Encode(Frame(PSH, sid, data))) == Got(Frame(PSH, sid, []), HEADER)
    ensures Encode(Frame(PSH, sid, data))[HEADER..] == data
  {
    EmptyAnnounced(sid, |data| % 0x1_0000, data);
  }

  lemma EmptyAnnounced(sid: U32, len: U16, data: seq<Byte>)
    requires len == 0
    ensures ParseOne(Header(PSH, sid, len) + data) == Got(Frame(PSH, sid, []), HEADER)
    ensures (Header(PSH, sid, len) + data)[HEADER..] == data
  {
    ParseHeaderBody(PSH, sid, len, data);
    assert data[..len] == [] && data[len..] == data;
  }

  /** The frames that mean something: everything but padding. */
  function NonWaste(frames: seq<Frame>): seq<Frame> {
    if frames == [] then []
    else (if frames[0].cmd == WASTE then [] else [frames[0]]) + NonWaste(frames[1..])
  }

  lemma {:induction false} NonWasteAppend(a: seq<Frame>, b: seq<Frame>)
    ensures NonWaste(a + b) == NonWaste(a) + NonWaste(b)
  {
    if a == [] {
      assert a + b == b;
    } else {
      var head := if a[0].cmd == WASTE then [] else [a[0]];
      calc {
        NonWaste(a + b);
        { assert (a + b)[0] == a[0] && (a + b)[1..] == a[1..] + b; }
        head + NonWaste(a[1..] + b);
        { NonWasteAppend(a[1..], b); }
        head + (NonWaste(a[1..]) + NonWaste(b));
        { ConcatAssociative(head, NonWaste(a[1..]), NonWaste(b)); }
        NonWaste(a) + NonWaste(b);
      }
    }
  }

  lemma NonWasteCons(f: Frame, frames: seq<Frame>)
    ensures NonWaste([f] + frames) == (if f.cmd == WASTE then [] else [f]) + NonWaste(frames)
  {
    assert ([f] + frames)[1..] == frames;
  }

  /** The bytes of a padding frame announcing `len` zero bytes. */
  function WasteBytes(len: nat): (b: seq<Byte>)
    ensures |b| == HEADER + len
  {
    Encode(Frame(WASTE, 0, Zeros(len)))
  }

  lemma ParseAllStep(b: seq<Byte>, f: Frame, used: nat)
    requires ParseOne(b) == Got(f, used)
    ensures ParseAll(b).rest == ParseAll(b[used..]).rest
    ensures NonWaste(ParseAll(b).frames)
         == (if f.cmd == WASTE then [] else [f]) + NonWaste(ParseAll(b[used..]).frames)
  {
    NonWasteCons(f, ParseAll(b[used..]).frames);
  }

  /** A run of zero bytes reads as empty padding frames of seven bytes each. */
  lemma {:induction false} ParseZeros(b: seq<Byte>, q: nat, r: nat)
    requires forall i :: 0 <= i < |b| ==> b[i] == 0
    requires |b| == 7 * q + r && r < 7
    ensures NonWaste(ParseAll(b).frames) == []
    ensures |ParseAll(b).rest| == r
    decreases q
  {
    if q > 0 {
      ParseAllStep(b, Frame(WASTE, 0, []), HEADER);
      ParseZeros(b[HEADER..], q - 1, r);
    }
  }

  lemma ZerosSplit(len: nat, k: nat)
    requires k <= len
    ensures Zeros(len)[..k] == Zeros(k)
    ensures Zeros(len)[k..] == Zeros(len - k)
  {
  }

  /** The receiver reads `body` zeros and leaves the spilled ones. */
  lemma WasteFirstFrame(len: nat, body: U16)
    requires body <= len
    ensures var b := Header(WASTE, 0, body) + Zeros(len);
            && ParseAll(b).rest == ParseAll(Zeros(len - body)).rest
            && ParseAll(b).frames == [Frame(WASTE, 0, Zeros(body))] + ParseAll(Zeros(len - body)).frames
  {
    ParseHeaderBody(WASTE, 0, body, Zeros(len));
    ZerosSplit(len, body);
  }

  lemma WasteSpill(spill: nat, body: U16)
    ensures var p := ParseAll(Header(WASTE, 0, body) + Zeros(spill + body));
            NonWaste(p.frames) == [] && (p.rest == [] <==> spill % 7 == 0)
  {
    var p, z := ParseAll(Header(WASTE, 0, body) + Zeros(spill + body)), ParseAll(Zeros(spill));
    assert p.rest == z.rest && p.frames == [Frame(WASTE, 0, Zeros(body))] + z.frames by {
      WasteFirstFrame(spill + body, body);
    }
    assert NonWaste(z.frames) == [] && |z.rest| == spill % 7 by {
      ParseZeros(Zeros(spill), spill / 7, spill % 7);
    }
    NonWasteCons(Frame(WASTE, 0, Zeros(body)), z.frames);
  }

  /** The announced length is cast to 16 bits, so a padding frame longer than that spills zeros,
      which the receiver reads as more (empty) padding. It stays self-delimiting, reading as padding
      and nothing else, exactly when the spill is a whole number of headers. */
  lemma WasteSelfDelimits(len: nat)
    ensures NonWaste(ParseAll(WasteBytes(len)).frames) == []
    ensures ParseAll(WasteBytes(len)).rest == [] <==> (len / 0x1_0000) % 7 == 0
  {
    var spill := 0x1_0000 * (len / 0x1_0000);
    assert spill + len % 0x1_0000 == len;
    WasteSpill(spill, len % 0x1_0000);
    SpillModHeader(len / 0x1_0000);
  }

  /** Padding of 65536 to 131071 bytes ends inside a header, which the next frame's bytes complete. */
  lemma LongPaddingSpills(len: nat)
    requires 0x1_0000 <= len < 0x2_0000
    ensures ParseAll(WasteBytes(len)).rest != []
  {
    OneSpill(len);
    WasteSelfDelimits(len);
  }

  lemma OneSpill(len: nat)
    requires 0x1_0000 <= len < 0x2_0000
    ensures (len / 0x1_0000) % 7 == 1
  {
    assert len / 0x1_0000 == 1;
  }

  lemma SpillModHeader(k: nat)
    ensures (0x1_0000 * k) % 7 == 0 <==> k % 7 == 0
  {
    // 65536 == 7 * 9362 + 2
    var q, r := k / 7, k % 7;
    assert 0x1_0000 * k == 7 * (9362 * k + 2 * q) + 2 * r;
    assert (0x1_0000 * k) % 7 == (2 * r) % 7;
  }
}
