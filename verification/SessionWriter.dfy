/** The sending half of an AnyTLS session: buffering, record splitting and padding. */
module SessionWriter {
  import opened Bytes
  import opened Frames

  const CHECK_MARK := -1

  /** A record size the padding scheme can produce: a check mark or a positive length. */
  predicate ValidSizes(sizes: seq<int>) {
    forall i :: 0 <= i < |sizes| ==> sizes[i] == CHECK_MARK || sizes[i] >= 1
  }

  /** A connection write fails at most once, after accepting part of one record; the connection is
      dead from then on. */
  datatype Fault = NoFault | FailAt(record: nat, written: nat)

  /** The sender's fields, and the records the connection has accepted. */
  datatype Out = Out(buffering: bool, buffer: seq<Byte>, sendPadding: bool, pkt: U32,
                     broken: bool, wire: seq<seq<Byte>>)

  /** The records one call writes for payload `b` under the generated sizes. */
  function Records(b: seq<Byte>, sizes: seq<int>): seq<seq<Byte>>
    requires ValidSizes(sizes)
    decreases |sizes|
  {
    if sizes == [] then (if b == [] then [] else [b])
    else
      var l := sizes[0];
      if l == CHECK_MARK then (if b == [] then [] else Records(b, sizes[1..]))
      else if |b| > l then [b[..l]] + Records(b[l..], sizes[1..])
      else if |b| > 0 then
        var pad := l - |b| - HEADER;
        [if pad > 0 then b + WasteBytes(pad) else b] + Records([], sizes[1..])
      else [WasteBytes(l)] + Records([], sizes[1..])
  }

  /** The lengths of the padding frames among them, given how many payload bytes remain. */
  function PadLengths(remaining: nat, sizes: seq<int>): seq<nat>
    requires ValidSizes(sizes)
    decreases |sizes|
  {
    if sizes == [] then []
    else
      var l := sizes[0];
      if l == CHECK_MARK then (if remaining == 0 then [] else PadLengths(remaining, sizes[1..]))
      else if remaining > l then PadLengths(remaining - l, sizes[1..])
      else if remaining > 0 then
        (if l - remaining - HEADER > 0 then [l - remaining - HEADER] else []) + PadLengths(0, sizes[1..])
      else [l] + PadLengths(0, sizes[1..])
  }

  function Padding(lengths: seq<nat>): seq<Byte> {
    if lengths == [] then [] else WasteBytes(lengths[0]) + Padding(lengths[1..])
  }

  /** Record splitting never reorders or cuts into the payload, and padding only follows it. */
  lemma {:induction false} RecordsMeaning(b: seq<Byte>, sizes: seq<int>)
    requires ValidSizes(sizes)
    ensures Flatten(Records(b, sizes)) == b + Padding(PadLengths(|b|, sizes))
    decreases |sizes|
  {
    if sizes == [] {
      if b != [] { FlattenSnoc([], b); }
    } else {
      var l, tail := sizes[0], sizes[1..];
      if l == CHECK_MARK {
        if b != [] { RecordsMeaning(b, tail); }
      } else if |b| > l {
        RecordsMeaning(b[l..], tail);
        FlattenCons(b[..l], Records(b[l..], tail));
        ConcatAssociative(b[..l], b[l..], Padding(PadLengths(|b| - l, tail)));
        assert b[..l] + b[l..] == b;
      } else {
        RecordsMeaning([], tail);
        var pads := PadLengths(0, tail);
        assert [] + Padding(pads) == Padding(pads);
        var pad := if |b| > 0 then l - |b| - HEADER else l;
        var first := if pad > 0 then b + WasteBytes(pad) else b;
        assert |b| == 0 ==> b + WasteBytes(pad) == WasteBytes(pad);
        FlattenCons(first, Records([], tail));
        if pad > 0 {
          assert PadLengths(|b|, sizes) == [pad] + pads;
          PaddingCons(pad, pads);
          ConcatAssociative(b, WasteBytes(pad), Padding(pads));
        } else {
          assert PadLengths(|b|, sizes) == pads;
        }
      }
    }
  }

  lemma FlattenCons<T>(x: seq<T>, rest: seq<seq<T>>)
    ensures Flatten([x] + rest) == x + Flatten(rest)
  {
    assert ([x] + rest)[1..] == rest;
  }

  lemma PaddingCons(l: nat, rest: seq<nat>)
    ensures Padding([l] + rest) == WasteBytes(l) + Padding(rest)
  {
    assert ([l] + rest)[1..] == rest;
  }

  /** Hand records to the connection, up to and including the failing one. */
  function Emit(s: Out, records: seq<seq<Byte>>, fault: Fault): Out {
    if s.broken then s
    else if fault.FailAt? && fault.record < |records| then
      var cut := records[fault.record];
      var part := cut[..if fault.written < |cut| then fault.written else |cut|];
      s.(wire := s.wire + records[..fault.record] + [part], broken := true)
    else s.(wire := s.wire + records)
  }

  /** The fault as seen after one more record has gone out. */
  function Later(fault: Fault): Fault {
    if fault.FailAt? && fault.record > 0 then FailAt(fault.record - 1, fault.written) else NoFault
  }

  lemma EmitOneByOne(s: Out, x: seq<Byte>, rest: seq<seq<Byte>>, fault: Fault)
    ensures Emit(s, [x] + rest, fault) == Emit(Emit(s, [x], fault), rest, Later(fault))
  {
    var records := [x] + rest;
    if !s.broken {
      if fault.FailAt? && 0 < fault.record < |records| {
        assert records[..fault.record] == [x] + rest[..fault.record - 1];
        assert records[fault.record] == rest[fault.record - 1];
        ConcatAssociative(s.wire, [x], rest[..fault.record - 1]);
      } else {
        ConcatAssociative(s.wire, [x], rest);
        var only := [x];
        assert records[..0] == only[..0] == [];
      }
    }
  }

  /** How much payload the sizes leave for a last, unpadded record. */
  function Tail(b: seq<Byte>, sizes: seq<int>): (n: nat)
    requires ValidSizes(sizes)
    ensures n <= |b|
    decreases |sizes|
  {
    if sizes == [] then |b|
    else
      var l := sizes[0];
      if l == CHECK_MARK then (if b == [] then 0 else Tail(b, sizes[1..]))
      else if |b| > l then Tail(b[l..], sizes[1..])
      else 0
  }

  function Accepted(fault: Fault, len: nat): (n: nat)
    ensures n <= len
  {
    if !fault.FailAt? then len else if fault.written < len then fault.written else len
  }

  /** The count a failing call reports after `n` bytes of payload: nothing, unless it was the last,
      unpadded record that failed; then the payload up to where the connection stopped. */
  function PartialCount(n: nat, b: seq<Byte>, sizes: seq<int>, fault: Fault): nat
    requires ValidSizes(sizes)
  {
    var tail := Tail(b, sizes);
    if tail > 0 && fault.FailAt? && fault.record == |Records(b, sizes)| - 1
    then n + |b| - tail + Accepted(fault, tail) else 0
  }

  /** Up to its last record, a payload that outlasts the sizes is written unpadded, cut at the sizes. */
  lemma {:induction false} TailIsLast(b: seq<Byte>, sizes: seq<int>)
    requires ValidSizes(sizes) && Tail(b, sizes) > 0
    ensures var records, n := Records(b, sizes), |b| - Tail(b, sizes);
            records != [] && Flatten(records[..|records| - 1]) == b[..n] && records[|records| - 1] == b[n..]
    decreases |sizes|
  {
    if sizes != [] {
      var l, records := sizes[0], Records(b, sizes);
      if l == CHECK_MARK {
        TailIsLast(b, sizes[1..]);
      } else {
        var rest := Records(b[l..], sizes[1..]);
        TailIsLast(b[l..], sizes[1..]);
        assert records[..|records| - 1] == [b[..l]] + rest[..|rest| - 1];
        FlattenCons(b[..l], rest[..|rest| - 1]);
      }
    }
  }

  /** The count is honest: when the last, unpadded record fails, it is the number of payload bytes, sent in
      order, that the connection took. */
  lemma CountIsWritten(b: seq<Byte>, sizes: seq<int>, fault: Fault)
    requires ValidSizes(sizes) && Tail(b, sizes) > 0 && fault.FailAt? && fault.record == |Records(b, sizes)| - 1
    ensures var records, n := Records(b, sizes), PartialCount(0, b, sizes, fault);
            && n <= |b| && records != [] && Accepted(fault, Tail(b, sizes)) <= |records[fault.record]|
            && Flatten(records[..fault.record]) + records[fault.record][..Accepted(fault, Tail(b, sizes))] == b[..n]
  {
    TailIsLast(b, sizes);
    var m := |b| - Tail(b, sizes);
    assert b[m..][..Accepted(fault, Tail(b, sizes))] == b[m..m + Accepted(fault, Tail(b, sizes))];
  }

  /** One call of writeConn. */
  function WriteStep(s: Out, b: seq<Byte>, stop: U32, sizes: seq<int>, fault: Fault): Out
    requires ValidSizes(sizes)
  {
    if s.buffering then s.(buffer := s.buffer + b)
    else
      var payload := s.buffer + b;
      var flushed := s.(buffer := []);
      if !s.sendPadding then Emit(flushed, [payload], fault)
      else
        var pkt := (s.pkt + 1) % 0x1_0000_0000;
        if pkt < stop then Emit(flushed.(pkt := pkt), Records(payload, sizes), fault)
        else Emit(flushed.(pkt := pkt, sendPadding := false), [payload], fault)
  }

  // ---- runs -------------------------------------------------------------------------------

  datatype Op =
    | Send(frame: Frame, stop: U32, sizes: seq<int>, fault: Fault)
    | SetBuffering(on: bool)

  ghost predicate ValidOps(ops: seq<Op>) {
    forall i :: 0 <= i < |ops| && ops[i].Send? ==> ValidSizes(ops[i].sizes)
  }

  const INITIAL := Out(false, [], true, 0, false, [])

  function StepOp(s: Out, op: Op): Out
    requires op.Send? ==> ValidSizes(op.sizes)
  {
    match op
    case Send(f, stop, sizes, fault) => WriteStep(s, Encode(f), stop, sizes, fault)
    case SetBuffering(on) => s.(buffering := on)
  }

  ghost function Exec(ops: seq<Op>): Out
    requires ValidOps(ops)
  {
    if ops == [] then INITIAL else StepOp(Exec(ops[..|ops| - 1]), ops[|ops| - 1])
  }

  /** Every frame passed to writeConn, in call order. */
  ghost function Sent(ops: seq<Op>): seq<Frame> {
    if ops == [] then []
    else
      var last := ops[|ops| - 1];
      Sent(ops[..|ops| - 1]) + if last.Send? then [last.frame] else []
  }

  /** A padding frame length the receiver reads back as padding (exact by WasteSelfDelimits). */
  predicate Delimits(len: nat) {
    (len / 0x1_0000) % 7 == 0
  }

  predicate AllDelimit(lengths: seq<nat>) {
    forall i :: 0 <= i < |lengths| ==> Delimits(lengths[i])
  }

  /** The padding frames a call actually sends. */
  function PadsOf(s: Out, b: seq<Byte>, stop: U32, sizes: seq<int>): seq<nat>
    requires ValidSizes(sizes)
  {
    if !s.buffering && s.sendPadding && (s.pkt + 1) % 0x1_0000_0000 < stop
    then PadLengths(|s.buffer| + |b|, sizes)
    else []
  }

  /** What the theorems ask of a send: a readable frame that is not padding, and padding frames
      that delimit themselves. Sizes below 65536 always do. */
  ghost predicate GoodSend(s: Out, op: Op) {
    op.Send? ==>
      && ValidSizes(op.sizes)
      && WellFormed(op.frame) && op.frame.cmd != WASTE
      && AllDelimit(PadsOf(s, Encode(op.frame), op.stop, op.sizes))
  }

  ghost predicate GoodRun(ops: seq<Op>) {
    && ValidOps(ops)
    && forall i :: 0 <= i < |ops| ==> GoodSend(Exec(ops[..i]), ops[i])
  }

  lemma {:induction false} SmallSizesDelimit(remaining: nat, sizes: seq<int>)
    requires ValidSizes(sizes)
    requires forall i :: 0 <= i < |sizes| ==> sizes[i] < 0x1_0000
    ensures AllDelimit(PadLengths(remaining, sizes))
    decreases |sizes|
  {
    if sizes != [] && !(sizes[0] == CHECK_MARK && remaining == 0) {
      var l := sizes[0];
      SmallSizesDelimit(if l == CHECK_MARK then remaining else if remaining > l then remaining - l else 0, sizes[1..]);
    }
  }

  /** Padding that delimits itself parses to nothing but padding. */
  lemma {:induction false} ParsePadding(lengths: seq<nat>)
    requires AllDelimit(lengths)
    ensures ParseAll(Padding(lengths)).rest == []
    ensures NonWaste(ParseAll(Padding(lengths)).frames) == []
  {
    if lengths != [] {
      var first, rest := WasteBytes(lengths[0]), Padding(lengths[1..]);
      WasteSelfDelimits(lengths[0]);
      ParsePadding(lengths[1..]);
      ParseAllConcat(first, rest);
    }
  }

  /** Concatenating a completely framed stream with another concatenates their meanings. */
  lemma ParseAllConcat(a: seq<Byte>, b: seq<Byte>)
    requires ParseAll(a).rest == []
    ensures ParseAll(a + b).rest == ParseAll(b).rest
    ensures ParseAll(a + b).frames == ParseAll(a).frames + ParseAll(b).frames
    ensures NonWaste(ParseAll(a + b).frames) == NonWaste(ParseAll(a).frames) + NonWaste(ParseAll(b).frames)
  {
    ParseAllAppend(a, b);
    assert [] + b == b;
    NonWasteAppend(ParseAll(a).frames, ParseAll(b).frames);
  }

  lemma ParseEncode(f: Frame)
    requires WellFormed(f)
    ensures ParseAll(Encode(f)) == Stream([f], [])
  {
    RoundTripExactly(f, []);
    assert Encode(f) + [] == Encode(f);
    assert Encode(f)[|Encode(f)|..] == [];
  }

  ghost function Meaning(bytes: seq<Byte>): seq<Frame> {
    NonWaste(ParseAll(bytes).frames)
  }

  /** What the peer can make of the sender's state: complete frames on the wire, complete frames
      in the buffer, and together exactly the frames sent. */
  ghost predicate Carries(s: Out, sent: seq<Frame>) {
    && ParseAll(Flatten(s.wire)).rest == []
    && ParseAll(s.buffer).rest == []
    && Meaning(Flatten(s.wire)) + Meaning(s.buffer) == sent
  }

  /** One payload written under any sizes puts its frames on the wire, whole and in order. */
  lemma PayloadOnWire(wire: seq<seq<Byte>>, payload: seq<Byte>, records: seq<seq<Byte>>, pads: seq<nat>)
    requires ParseAll(Flatten(wire)).rest == [] && ParseAll(payload).rest == []
    requires AllDelimit(pads)
    requires Flatten(records) == payload + Padding(pads)
    ensures ParseAll(Flatten(wire + records)).rest == []
    ensures Meaning(Flatten(wire + records)) == Meaning(Flatten(wire)) + Meaning(payload)
  {
    FlattenAppend(wire, records);
    ParsePadding(pads);
    ParseAllConcat(payload, Padding(pads));
    ParseAllConcat(Flatten(wire), Flatten(records));
    assert Meaning(payload) + [] == Meaning(payload);
  }

  lemma PayloadMeaning(held: seq<Byte>, f: Frame)
    requires ParseAll(held).rest == []
    requires WellFormed(f) && f.cmd != WASTE
    ensures ParseAll(held + Encode(f)).rest == []
    ensures Meaning(held + Encode(f)) == Meaning(held) + [f]
  {
    ParseEncode(f);
    ParseAllConcat(held, Encode(f));
    NonWasteCons(f, []);
    assert [f] + [] == [f];
  }

  /** The records a flushing call writes, padded or not, are its payload and then padding. */
  lemma FlushRecords(s: Out, op: Op) returns (records: seq<seq<Byte>>, pads: seq<nat>)
    requires op.Send? && op.fault == NoFault && !s.broken && !s.buffering
    requires GoodSend(s, op)
    ensures AllDelimit(pads)
    ensures Flatten(records) == s.buffer + Encode(op.frame) + Padding(pads)
    ensures StepOp(s, op).wire == s.wire + records
    ensures StepOp(s, op).buffer == [] && !StepOp(s, op).broken
  {
    var payload := s.buffer + Encode(op.frame);
    if s.sendPadding && (s.pkt + 1) % 0x1_0000_0000 < op.stop {
      RecordsMeaning(payload, op.sizes);
      records, pads := Records(payload, op.sizes), PadLengths(|payload|, op.sizes);
    } else {
      FlattenCons(payload, []);
      assert [payload] + [] == [payload] && payload + [] == payload;
      records, pads := [payload], [];
    }
  }

  lemma SendCarries(s: Out, op: Op, sent: seq<Frame>)
    requires op.Send? && op.fault == NoFault && !s.broken
    requires GoodSend(s, op) && Carries(s, sent)
    ensures !StepOp(s, op).broken
    ensures Carries(StepOp(s, op), sent + [op.frame])
  {
    var wired, held := Meaning(Flatten(s.wire)), Meaning(s.buffer);
    PayloadMeaning(s.buffer, op.frame);
    ConcatAssociative(wired, held, [op.frame]);
    if !s.buffering {
      var records, pads := FlushRecords(s, op);
      PayloadOnWire(s.wire, s.buffer + Encode(op.frame), records, pads);
      assert Meaning([]) == [];
    }
  }

  ghost predicate Faultless(ops: seq<Op>) {
    forall i :: 0 <= i < |ops| && ops[i].Send? ==> ops[i].fault == NoFault
  }

  /** Over every run of sends and buffering toggles, padding is never placed inside a frame, and
      the wire with its padding removed, followed by what is still buffered, is exactly the frames
      sent, in order. */
  lemma {:induction false} RunKeepsMeaning(ops: seq<Op>)
    requires GoodRun(ops) && Faultless(ops)
    ensures Carries(Exec(ops), Sent(ops)) && !Exec(ops).broken
    decreases |ops|
  {
    if ops != [] {
      var n := |ops| - 1;
      var s, sent := Exec(ops[..n]), Sent(ops[..n]);
      assert GoodRun(ops[..n]) && GoodSend(s, ops[n]) by { GoodRunPrefix(ops, n); }
      assert Carries(s, sent) && !s.broken by { RunKeepsMeaning(ops[..n]); }
      if ops[n].Send? {
        assert Carries(StepOp(s, ops[n]), sent + [ops[n].frame]) && !StepOp(s, ops[n]).broken by { SendCarries(s, ops[n], sent); }
      } else {
        assert sent + [] == sent;
      }
    }
  }

  lemma GoodRunPrefix(ops: seq<Op>, n: nat)
    requires GoodRun(ops) && n <= |ops|
    ensures GoodRun(ops[..n])
    ensures n < |ops| ==> GoodSend(Exec(ops[..n]), ops[n])
  {
    forall i | 0 <= i < n
      ensures GoodSend(Exec(ops[..n][..i]), ops[..n][i])
    {
      assert ops[..n][..i] == ops[..i];
    }
  }

  // ---- which packets are padded --------------------------------------------------------------

  /** Whether the calls so far leave frames held back: the last toggle decides. */
  ghost predicate Buffering(ops: seq<Op>) {
    ops != [] && var last := ops[|ops| - 1]; if last.Send? then Buffering(ops[..|ops| - 1]) else last.on
  }

  /** The i-th call is a send that goes out. */
  ghost predicate Flushes(ops: seq<Op>, i: int) {
    0 <= i < |ops| && ops[i].Send? && !Buffering(ops[..i])
  }

  ghost function FlushCount(ops: seq<Op>): nat {
    if ops == [] then 0 else FlushCount(ops[..|ops| - 1]) + if Flushes(ops, |ops| - 1) then 1 else 0
  }

  /** The bytes held back: the frames sent since the last send that went out. */
  ghost function HeldBack(ops: seq<Op>): seq<Byte> {
    if ops == [] then []
    else
      var n := |ops| - 1;
      if !ops[n].Send? then HeldBack(ops[..n])
      else if Buffering(ops[..n]) then HeldBack(ops[..n]) + Encode(ops[n].frame)
      else []
  }

  /** The i-th call goes out with a number, counted from one and kept in 32 bits, at or above the
      scheme's stop. */
  ghost predicate PastStop(ops: seq<Op>, i: int) {
    Flushes(ops, i) && (FlushCount(ops[..i]) + 1) % 0x1_0000_0000 >= ops[i].stop
  }

  /** Some call so far was past the stop: no padding from then on. */
  ghost predicate Stopped(ops: seq<Op>) {
    exists i :: PastStop(ops, i)
  }

  lemma PastStopStays(ops: seq<Op>, op: Op, i: int)
    requires 0 <= i < |ops|
    ensures PastStop(ops + [op], i) <==> PastStop(ops, i)
  {
    assert (ops + [op])[..i] == ops[..i];
  }

  lemma StoppedSnoc(ops: seq<Op>, op: Op)
    ensures Stopped(ops + [op]) <==> Stopped(ops) || PastStop(ops + [op], |ops|)
  {
    if Stopped(ops + [op]) {
      var i :| PastStop(ops + [op], i);
      if i < |ops| { PastStopStays(ops, op, i); }
    }
    if Stopped(ops) {
      var i :| PastStop(ops, i);
      PastStopStays(ops, op, i);
    }
  }

  /** The sender's fields as the calls alone determine them. */
  ghost predicate FromOps(s: Out, ops: seq<Op>) {
    && s.buffering == Buffering(ops) && s.buffer == HeldBack(ops)
    && (s.sendPadding <==> !Stopped(ops))
    && (s.sendPadding ==> s.pkt == FlushCount(ops) % 0x1_0000_0000)
  }

  lemma StepFromOps(s: Out, ops: seq<Op>, op: Op)
    requires FromOps(s, ops) && (op.Send? ==> ValidSizes(op.sizes))
    ensures FromOps(StepOp(s, op), ops + [op])
  {
    var all := ops + [op];
    assert all[..|ops|] == ops && all[|ops|] == op;
    StoppedSnoc(ops, op);
    CountOn(FlushCount(ops));
  }

  lemma CountOn(n: nat)
    ensures (n % 0x1_0000_0000 + 1) % 0x1_0000_0000 == (n + 1) % 0x1_0000_0000
  {
  }

  lemma {:induction false} FieldsFromOps(ops: seq<Op>)
    requires ValidOps(ops)
    ensures FromOps(Exec(ops), ops)
    decreases |ops|
  {
    if ops == [] {
      assert forall i :: !PastStop(ops, i);
    } else {
      var n := |ops| - 1;
      FieldsFromOps(ops[..n]);
      StepFromOps(Exec(ops[..n]), ops[..n], ops[n]);
      assert ops[..n] + [ops[n]] == ops;
    }
  }

  /** The records of a send that goes out after the given calls. */
  ghost function RecordsOf(ops: seq<Op>, op: Op): seq<seq<Byte>>
    requires op.Send? && ValidSizes(op.sizes)
  {
    var payload := HeldBack(ops) + Encode(op.frame);
    if Stopped(ops + [op]) then [payload] else Records(payload, op.sizes)
  }

  lemma SendWrites(s: Out, ops: seq<Op>, op: Op)
    requires FromOps(s, ops) && op.Send? && ValidSizes(op.sizes) && !Buffering(ops)
    ensures StepOp(s, op).wire == Emit(s, RecordsOf(ops, op), op.fault).wire
  {
    assert (ops + [op])[..|ops|] == ops;
    StoppedSnoc(ops, op);
    CountOn(FlushCount(ops));
  }

  /** Over every run: a send that goes out writes what was held back and its own frame; as padded records
      of the generated sizes if no send up to and including it was past the stop, else as one record. */
  lemma PaddedExactly(ops: seq<Op>, op: Op)
    requires ValidOps(ops) && op.Send? && ValidSizes(op.sizes) && !Buffering(ops)
    ensures ValidOps(ops + [op]) && Exec(ops + [op]).wire == Emit(Exec(ops), RecordsOf(ops, op), op.fault).wire
    ensures var payload := HeldBack(ops) + Encode(op.frame);
            Flatten(RecordsOf(ops, op))
            == payload + if Stopped(ops + [op]) then [] else Padding(PadLengths(|payload|, op.sizes))
  {
    assert (ops + [op])[..|ops|] == ops;
    FieldsFromOps(ops);
    SendWrites(Exec(ops), ops, op);
    RecordsFlat(HeldBack(ops) + Encode(op.frame), op.sizes);
  }

  lemma RecordsFlat(payload: seq<Byte>, sizes: seq<int>)
    requires ValidSizes(sizes)
    ensures Flatten(Records(payload, sizes)) == payload + Padding(PadLengths(|payload|, sizes))
    ensures Flatten([payload]) == payload + []
  {
    RecordsMeaning(payload, sizes);
    FlattenCons(payload, []);
    assert [payload] + [] == [payload];
  }

  /** The record lengths a payload of n bytes gets: the size asked for; more for padding alone, whose
      header comes on top; less where the payload ends too close to the size for a padding header. */
  function RecordLengths(n: nat, sizes: seq<int>): seq<nat>
    requires ValidSizes(sizes)
    decreases |sizes|
  {
    if sizes == [] then (if n == 0 then [] else [n])
    else
      var l := sizes[0];
      if l == CHECK_MARK then (if n == 0 then [] else RecordLengths(n, sizes[1..]))
      else if n == 0 then [l + HEADER] + RecordLengths(0, sizes[1..])
      else if n > l then [l] + RecordLengths(n - l, sizes[1..])
      else [if n + HEADER < l then l else n] + RecordLengths(0, sizes[1..])
  }

  lemma {:induction false} RecordsHaveLengths(b: seq<Byte>, sizes: seq<int>)
    requires ValidSizes(sizes)
    ensures var records, lengths := Records(b, sizes), RecordLengths(|b|, sizes);
            |records| == |lengths| && forall i :: 0 <= i < |records| ==> |records[i]| == lengths[i]
    decreases |sizes|
  {
    if sizes != [] {
      var l := sizes[0];
      if l == CHECK_MARK {
        if b != [] { RecordsHaveLengths(b, sizes[1..]); }
      } else {
        RecordsHaveLengths(if |b| > l then b[l..] else [], sizes[1..]);
      }
    }
  }

  /** What a failing call leaves on the wire: the records before the failing one, and that up to the byte
      at which the connection stopped. */
  lemma FailureWrites(s: Out, records: seq<seq<Byte>>, fault: Fault)
    requires !s.broken && fault.FailAt? && fault.record < |records|
    ensures var t, cut := Emit(s, records, fault), records[fault.record];
            && t.broken && Flatten(t.wire)
               == Flatten(s.wire) + Flatten(records[..fault.record]) + cut[..Accepted(fault, |cut|)]
  {
    var cut := records[fault.record];
    var part := cut[..Accepted(fault, |cut|)];
    FlattenAppend(s.wire, records[..fault.record]);
    FlattenSnoc(s.wire + records[..fault.record], part);
  }

  // ---- connection failures ------------------------------------------------------------------

  /** The same calls on a connection that never fails. */
  ghost function WithoutFaults(ops: seq<Op>): (r: seq<Op>)
    ensures |r| == |ops|
    ensures forall i :: 0 <= i < |ops| ==> r[i] == if ops[i].Send? then ops[i].(fault := NoFault) else ops[i]
  {
    seq(|ops|, i requires 0 <= i < |ops| => if ops[i].Send? then ops[i].(fault := NoFault) else ops[i])
  }

  lemma WithoutFaultsPrefix(ops: seq<Op>, n: nat)
    requires n <= |ops|
    ensures WithoutFaults(ops)[..n] == WithoutFaults(ops[..n])
  {
  }

  lemma {:induction false} PrefixFlatten(records: seq<seq<Byte>>, i: nat, j: nat)
    requires i < |records| && j <= |records[i]|
    ensures Flatten(records[..i] + [records[i][..j]]) <= Flatten(records)
  {
    var part := records[i][..j];
    FlattenSnoc(records[..i], part);
    FlattenSnoc(records[..i], records[i]);
    assert records[..i] + [records[i]] == records[..i + 1];
    FlattenAppend(records[..i + 1], records[i + 1..]);
    assert records[..i + 1] + records[i + 1..] == records;
  }

  /** A failing connection only ever loses a suffix. */
  ghost predicate Truncates(s: Out, whole: Out) {
    && s.(broken := false, wire := []) == whole.(broken := false, wire := [])
    && !whole.broken
    && Flatten(s.wire) <= Flatten(whole.wire)
    && (!s.broken ==> s.wire == whole.wire)
  }

  lemma EmitTruncates(s: Out, whole: Out, records: seq<seq<Byte>>, fault: Fault)
    requires Truncates(s, whole)
    ensures Truncates(Emit(s, records, fault), Emit(whole, records, NoFault))
  {
    FlattenAppend(whole.wire, records);
    if !s.broken && fault.FailAt? && fault.record < |records| {
      var cut := records[fault.record];
      var j := if fault.written < |cut| then fault.written else |cut|;
      var kept := records[..fault.record] + [cut[..j]];
      PrefixFlatten(records, fault.record, j);
      assert s.wire + records[..fault.record] + [cut[..j]] == s.wire + kept;
      FlattenAppend(s.wire, kept);
    }
  }

  lemma {:induction false} FaultsTruncate(ops: seq<Op>)
    requires ValidOps(ops)
    ensures ValidOps(WithoutFaults(ops))
    ensures Truncates(Exec(ops), Exec(WithoutFaults(ops)))
    decreases |ops|
  {
    if ops != [] {
      var n := |ops| - 1;
      FaultsTruncate(ops[..n]);
      WithoutFaultsPrefix(ops, n);
      StepTruncates(Exec(ops[..n]), Exec(WithoutFaults(ops[..n])), ops[n]);
    }
  }

  lemma StepTruncates(s: Out, whole: Out, op: Op)
    requires Truncates(s, whole)
    requires op.Send? ==> ValidSizes(op.sizes)
    ensures Truncates(StepOp(s, op), StepOp(whole, if op.Send? then op.(fault := NoFault) else op))
  {
    if op.Send? && !s.buffering {
      var payload := s.buffer + Encode(op.frame);
      var pkt := (s.pkt + 1) % 0x1_0000_0000;
      var padded := s.sendPadding && pkt < op.stop;
      var records := if padded then Records(payload, op.sizes) else [payload];
      var next := s.(buffer := [], pkt := if s.sendPadding then pkt else s.pkt, sendPadding := padded);
      var nextWhole := whole.(buffer := [], pkt := next.pkt, sendPadding := padded);
      assert StepOp(s, op) == Emit(next, records, op.fault);
      assert StepOp(whole, op.(fault := NoFault)) == Emit(nextWhole, records, NoFault);
      EmitTruncates(next, nextWhole, records, op.fault);
    }
  }

  lemma {:induction false} SentWithoutFaults(ops: seq<Op>)
    ensures Sent(WithoutFaults(ops)) == Sent(ops)
    decreases |ops|
  {
    if ops != [] {
      WithoutFaultsPrefix(ops, |ops| - 1);
      SentWithoutFaults(ops[..|ops| - 1]);
    }
  }

  lemma WithoutFaultsGoodAt(ops: seq<Op>, i: nat)
    requires GoodRun(ops) && i < |ops| && ValidOps(WithoutFaults(ops))
    ensures GoodSend(Exec(WithoutFaults(ops)[..i]), WithoutFaults(ops)[i])
  {
    var s, whole := Exec(ops[..i]), Exec(WithoutFaults(ops)[..i]);
    assert GoodSend(s, ops[i]) by { GoodRunPrefix(ops, i); }
    assert Truncates(s, whole) by {
      WithoutFaultsPrefix(ops, i);
      FaultsTruncate(ops[..i]);
    }
    GoodSendTruncated(s, whole, ops[i]);
  }

  /** What is padded does not depend on what the connection took. */
  lemma GoodSendTruncated(s: Out, whole: Out, op: Op)
    requires Truncates(s, whole) && GoodSend(s, op)
    ensures GoodSend(whole, if op.Send? then op.(fault := NoFault) else op)
  {
  }

  lemma WithoutFaultsGood(ops: seq<Op>)
    requires GoodRun(ops)
    ensures GoodRun(WithoutFaults(ops)) && Faultless(WithoutFaults(ops))
  {
    forall i | 0 <= i < |ops|
      ensures GoodSend(Exec(WithoutFaults(ops)[..i]), WithoutFaults(ops)[i])
    {
      WithoutFaultsGoodAt(ops, i);
    }
  }

  /** Whatever writes fail, the peer reads a prefix of the frames sent. */
  lemma AnyRunDeliversPrefix(ops: seq<Op>)
    requires GoodRun(ops)
    ensures Meaning(Flatten(Exec(ops).wire)) <= Sent(ops)
  {
    var clean := WithoutFaults(ops);
    WithoutFaultsGood(ops);
    RunKeepsMeaning(clean);
    FaultsTruncate(ops);
    SentWithoutFaults(ops);
    var got, all := Flatten(Exec(ops).wire), Flatten(Exec(clean).wire);
    var missing := all[|got|..];
    assert got + missing == all;
    ParseAllAppend(got, missing);
    NonWasteAppend(ParseAll(got).frames, ParseAll(ParseAll(got).rest + missing).frames);
  }

  /** Once the settings frame is the first one sent, it precedes every stream opening on the wire,
      whatever is buffered, padded or lost. */
  lemma SettingsPrecedeSyn(ops: seq<Op>, i: nat)
    requires GoodRun(ops)
    requires Sent(ops) != [] && Sent(ops)[0].cmd == SETTINGS
    requires i < |Meaning(Flatten(Exec(ops).wire))| && Meaning(Flatten(Exec(ops).wire))[i].cmd == SYN
    ensures 0 < i && Meaning(Flatten(Exec(ops).wire))[0] == Sent(ops)[0]
  {
    AnyRunDeliversPrefix(ops);
  }
}
