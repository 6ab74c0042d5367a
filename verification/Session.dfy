/** The session object whose methods perform the writer's steps in place. */
module Session {
  import opened Bytes
  import opened Frames
  import opened SessionWriter
  import E = EndToEnd

  /** The peer reads a prefix of the frames sent, and all of them once nothing failed and nothing is
      held back. */
  ghost predicate WireMeaning(ops: seq<Op>, wire: seq<seq<Byte>>, buffering: bool) {
    GoodRun(ops) ==>
      && Meaning(Flatten(wire)) <= Sent(ops)
      && (Faultless(ops) && !buffering ==> Meaning(Flatten(wire)) == Sent(ops))
  }

  lemma WireMeans(ops: seq<Op>)
    requires ValidOps(ops) && ops != [] && ops[|ops| - 1].Send?
    ensures WireMeaning(ops, Exec(ops).wire, Exec(ops).buffering)
  {
    if GoodRun(ops) {
      AnyRunDeliversPrefix(ops);
      if Faultless(ops) && !Exec(ops).buffering {
        var s := Exec(ops);
        assert Carries(s, Sent(ops)) by { RunKeepsMeaning(ops); }
        assert s.buffer == [] by { SendFlushes(Exec(ops[..|ops| - 1]), ops[|ops| - 1]); }
        FlushedCarries(s, Sent(ops));
      }
    }
  }

  lemma SendFlushes(s: Out, op: Op)
    requires op.Send? && ValidSizes(op.sizes)
    ensures !StepOp(s, op).buffering ==> StepOp(s, op).buffer == []
  {
  }

  lemma FlushedCarries(s: Out, sent: seq<Frame>)
    requires Carries(s, sent) && s.buffer == []
    ensures Meaning(Flatten(s.wire)) == sent
  {
    assert Meaning([]) == [];
    assert Meaning(Flatten(s.wire)) + [] == Meaning(Flatten(s.wire));
  }

  /** What one record does to the count a failing call would report. */
  lemma PartialStep(n: nat, rest: seq<Byte>, l: int, later: seq<int>, record: seq<Byte>, left: seq<Byte>, fault: Fault)
    requires l >= 1 && ValidSizes(later) && ValidSizes([l] + later)
    requires left == if |rest| > l then rest[l..] else []
    requires Records(rest, [l] + later) == [record] + Records(left, later)
    ensures fault.FailAt? && fault.record == 0 ==> PartialCount(n, rest, [l] + later, fault) == 0
    ensures !(fault.FailAt? && fault.record == 0) ==>
              PartialCount(n, rest, [l] + later, fault) == PartialCount(n + |rest| - |left|, left, later, Later(fault))
  {
    assert ([l] + later)[1..] == later;
    TailRecord(left, later);
    if |rest| <= l { EmptyTail(later); }
  }

  /** A tail is the last record. */
  lemma {:induction false} TailRecord(b: seq<Byte>, sizes: seq<int>)
    requires ValidSizes(sizes)
    ensures Tail(b, sizes) > 0 ==> Records(b, sizes) != []
    decreases |sizes|
  {
    if sizes != [] && sizes[0] == CHECK_MARK && b != [] { TailRecord(b, sizes[1..]); }
  }

  lemma {:induction false} EmptyTail(sizes: seq<int>)
    requires ValidSizes(sizes)
    ensures Tail([], sizes) == 0
  {
  }

  class ClientSession {
    var buffering: bool
    var buffer: seq<Byte>
    var sendPadding: bool
    var pktCounter: U32
    var connBroken: bool
    var wire: seq<seq<Byte>>

    var closed: bool
    var streamId: U32
    var streams: set<U32>

    /** The calls made so far. */
    ghost var ops: seq<Op>

    function Abs(): Out
      reads this
    {
      Out(buffering, buffer, sendPadding, pktCounter, connBroken, wire)
    }

    ghost predicate Valid()
      reads this
    {
      ValidOps(ops) && Abs() == Exec(ops)
    }

    /** The client has kept to the protocol so far. */
    ghost predicate Conforming()
      reads this
    {
      E.ClientInv(E.Client(streamId, streams, Sent(ops)))
    }

    constructor ()
      ensures Valid() && ops == [] && !closed && streamId == 0 && streams == {}
    {
      buffering, buffer, sendPadding, pktCounter := false, [], true, 0;
      connBroken, wire := false, [];
      closed, streamId, streams, ops := false, 0, {}, [];
    }

    /** Hand a record to the connection. */
    method ConnWrite(record: seq<Byte>, fault: Fault) returns (n: nat, ok: bool)
      modifies this`wire, this`connBroken
      ensures Abs() == Emit(old(Abs()), [record], fault)
      ensures ok == !connBroken
      ensures n == if ok then |record| else if old(connBroken) then 0 else Accepted(fault, |record|)
    {
      ghost var only := [record];
      assert only[..0] == [];
      ok := !connBroken && !(fault.FailAt? && fault.record == 0);
      n := 0;
      if ok {
        wire := wire + [record];
        n := |record|;
      } else if !connBroken {
        n := if fault.written < |record| then fault.written else |record|;
        wire := wire + [record[..n]];
        connBroken := true;
      }
    }

    /** The loop over the generated sizes. */
    method WriteRecords(payload: seq<Byte>, sizes: seq<int>, fault: Fault) returns (n: nat, ok: bool)
      requires ValidSizes(sizes) && payload != []
      modifies this`connBroken, this`wire
      ensures Abs() == Emit(old(Abs()), Records(payload, sizes), fault)
      ensures ok == !connBroken
      ensures n == if ok then |payload| else if old(connBroken) then 0 else PartialCount(0, payload, sizes, fault)
    {
      var rest, pending, i := payload, fault, 0;
      n := 0;
      assert sizes[0..] == sizes;
      while i < |sizes|
        invariant i <= |sizes| && n + |rest| == |payload|
        invariant rest == payload || !connBroken
        invariant connBroken == old(connBroken)
        invariant PartialCount(0, payload, sizes, fault) == PartialCount(n, rest, sizes[i..], pending)
        invariant Emit(old(Abs()), Records(payload, sizes), fault) == Emit(Abs(), Records(rest, sizes[i..]), pending)
      {
        var l := sizes[i];
        assert sizes[i..] == [l] + sizes[i + 1..];
        i := i + 1;
        if l == CHECK_MARK {
          if rest == [] { break; }
        } else {
          var record, left := NextSplit(rest, l, sizes[i..]);
          EmitOneByOne(Abs(), record, Records(left, sizes[i..]), pending);
          PartialStep(n, rest, l, sizes[i..], record, left, pending);
          var taken;
          taken, ok := ConnWrite(record, pending);
          if !ok { return 0, false; }
          n, rest, pending := n + |rest| - |left|, left, Later(pending);
        }
      }
      if rest == [] {
        return n, true;
      }
      var last;
      last, ok := ConnWrite(rest, pending);
      n := n + last;
    }

    /** One record: a slice of payload, the last of the payload with padding, or padding alone. */
    static method NextSplit(rest: seq<Byte>, l: int, ghost later: seq<int>) returns (record: seq<Byte>, left: seq<Byte>)
      requires l >= 1 && ValidSizes(later) && ValidSizes([l] + later)
      ensures Records(rest, [l] + later) == [record] + Records(left, later)
      ensures left == if |rest| > l then rest[l..] else []
    {
      assert ([l] + later)[1..] == later;
      if |rest| > l {
        return rest[..l], rest[l..];
      } else if |rest| > 0 {
        var pad := l - |rest| - HEADER;
        return if pad > 0 then rest + WasteBytes(pad) else rest, [];
      } else {
        return WasteBytes(l), [];
      }
    }

    /** Write `b`, after whatever is buffered, as records of the generated sizes. */
    method WriteConn(b: seq<Byte>, stop: U32, sizes: seq<int>, fault: Fault) returns (n: nat, ok: bool)
      requires ValidSizes(sizes) && b != []
      modifies this`buffer, this`sendPadding, this`pktCounter, this`connBroken, this`wire
      ensures Abs() == WriteStep(old(Abs()), b, stop, sizes, fault)
      ensures ok == (old(buffering) || !connBroken)
      ensures ok ==> n == if old(buffering) then |b| else |old(buffer)| + |b|
      ensures !ok && old(connBroken) ==> n == 0
      ensures !ok && !old(connBroken) ==>
                n == if old(sendPadding) && pktCounter < stop then PartialCount(0, old(buffer) + b, sizes, fault)
                     else Accepted(fault, |old(buffer) + b|)
    {
      if buffering {
        buffer := buffer + b;
        return |b|, true;
      }
      var payload := buffer + b;
      buffer := [];
      if sendPadding {
        pktCounter := (pktCounter + 1) % 0x1_0000_0000;
        if pktCounter < stop {
          n, ok := WriteRecords(payload, sizes, fault);
          return;
        }
        sendPadding := false;
      }
      n, ok := ConnWrite(payload, fault);
    }

    /** Encode a frame and write it; a failed control frame closes the session. */
    method WriteFrame(f: Frame, stop: U32, sizes: seq<int>, fault: Fault) returns (ok: bool)
      requires Valid() && ValidSizes(sizes)
      modifies this
      ensures Valid() && ops == old(ops) + [Send(f, stop, sizes, fault)]
      ensures ok == (old(buffering) || !connBroken)
      ensures streamId == old(streamId) && buffering == old(buffering)
      ensures closed == (old(closed) || (!ok && f.cmd != PSH))
      ensures streams == if !ok && f.cmd != PSH then {} else old(streams)
    {
      var n;
      n, ok := WriteConn(Encode(f), stop, sizes, fault);
      ghost var op := Send(f, stop, sizes, fault);
      assert (ops + [op])[..|ops|] == ops;
      ops := ops + [op];
      if !ok && f.cmd != PSH {
        closed, streams := true, {};
      }
    }

    method SetBuffering(on: bool)
      requires Valid()
      modifies this`buffering, this`ops
      ensures Valid() && ops == old(ops) + [Op.SetBuffering(on)] && buffering == on
    {
      buffering := on;
      ghost var op := Op.SetBuffering(on);
      assert (ops + [op])[..|ops|] == ops;
      ops := ops + [op];
    }

    /** Start the client: hold the settings frame back so that it leaves with the first stream. */
    method Run(settings: seq<Byte>, stop: U32, sizes: seq<int>, fault: Fault)
      requires Valid() && ops == [] && ValidSizes(sizes)
      modifies this
      ensures Valid() && Sent(ops) == [Frame(SETTINGS, 0, settings)]
      ensures wire == [] && buffer == Encode(Frame(SETTINGS, 0, settings)) && buffering
      ensures closed == old(closed) && streams == old(streams) && streamId == old(streamId)
      ensures settings != [] && streams == {} && streamId == 0 ==> Conforming()
    {
      SetBuffering(true);
      var f := Frame(SETTINGS, 0, settings);
      ghost var first := ops;
      var ok := WriteFrame(f, stop, sizes, fault);
      assert Sent([]) == [] && first == [Op.SetBuffering(true)] && Sent(first) == [];
      assert ops[..1] == first;
      assert Exec(first) == Out(true, [], true, 0, false, []);
      if settings != [] { E.StartConforms(settings); }
    }

    /** Send the SYN and end buffering. */
    method Announce(stop: U32, sizes: seq<int>, fault: Fault) returns (ok: bool)
      requires Valid() && ValidSizes(sizes)
      modifies this
      ensures Valid() && Sent(ops) == Sent(old(ops)) + [Frame(SYN, streamId, [])]
      ensures ok == (old(buffering) || !connBroken) && streamId == old(streamId)
      ensures closed == (old(closed) || !ok) && streams == if ok then old(streams) else {}
      ensures ok ==> !buffering
    {
      ghost var before := ops;
      ok := WriteFrame(Frame(SYN, streamId, []), stop, sizes, fault);
      assert ops[..|before|] == before;
      if ok {
        ghost var announced := ops;
        SetBuffering(false);
        assert ops[..|announced|] == announced;
        assert Sent(ops) == Sent(announced) + [];
      }
    }

    /** Open a stream: announce it, then let the next write flush. The session may have been closed by
        someone else when the stream is about to be registered. */
    method OpenStream(stop: U32, sizes: seq<int>, fault: Fault, died: bool) returns (sid: Option<U32>)
      requires Valid() && ValidSizes(sizes)
      modifies this
      ensures Valid()
      ensures sid.Some? <==> !old(closed) && (old(buffering) || !connBroken) && !died
      ensures old(closed) ==> Abs() == old(Abs()) && ops == old(ops) && streams == old(streams) && streamId == old(streamId)
      ensures !old(closed) ==> streamId == (old(streamId) + 1) % 0x1_0000_0000
      ensures !old(closed) ==> Sent(ops) == Sent(old(ops)) + [Frame(SYN, streamId, [])]
      ensures sid.Some? ==> sid.value == streamId && !buffering && streams == old(streams) + {streamId}
      ensures sid.None? && !old(closed) ==> closed && streams == {}
      ensures old(Conforming()) && old(streamId) + 1 < 0x1_0000_0000 ==> Conforming()
    {
      if closed { return None; }
      streamId := (streamId + 1) % 0x1_0000_0000;
      var ok := Announce(stop, sizes, fault);
      sid := None;
      if ok && died {
        closed, streams := true, {};
      } else if ok {
        streams := streams + {streamId};
        sid := Some(streamId);
      }
      assert old(Conforming()) && old(streamId) + 1 < 0x1_0000_0000 ==> Conforming() by {
        E.OpenedConforms(old(E.Client(streamId, streams, Sent(ops))), streams);
      }
    }

    /** A stream's write: one data frame, or nothing at all on a dead connection. */
    method WriteData(sid: U32, data: seq<Byte>, stop: U32, sizes: seq<int>, fault: Fault) returns (ok: bool)
      requires Valid() && ValidSizes(sizes)
      modifies this
      ensures Valid() && Sent(ops) == Sent(old(ops)) + [Frame(PSH, sid, data)]
      ensures ok == (old(buffering) || !connBroken)
      ensures closed == old(closed) && streams == old(streams) && streamId == old(streamId)
      ensures WireMeaning(ops, wire, buffering)
      ensures old(Conforming()) && sid in streams ==> Conforming()
    {
      ghost var client := E.Client(streamId, streams, Sent(ops));
      if E.ClientInv(client) && sid in streams { E.UsedConforms(client, E.Writes(sid, data)); }
      ghost var before := ops;
      ok := WriteFrame(Frame(PSH, sid, data), stop, sizes, fault);
      assert ops[..|before|] == before;
      WireMeans(ops);
    }

    /** Closing a stream tells the peer and forgets it. */
    method StreamClosed(sid: U32, stop: U32, sizes: seq<int>, fault: Fault) returns (ok: bool)
      requires Valid() && ValidSizes(sizes)
      modifies this
      ensures Valid()
      ensures ok == (!old(closed) && (old(buffering) || !connBroken))
      ensures old(closed) ==> Abs() == old(Abs()) && ops == old(ops) && streams == old(streams)
      ensures !old(closed) ==> Sent(ops) == Sent(old(ops)) + [Frame(FIN, sid, [])]
      ensures ok ==> streams == old(streams) - {sid} && !closed
      ensures old(Conforming()) && sid in old(streams) ==> Conforming()
    {
      if closed { return false; }
      ghost var before := ops;
      ok := WriteFrame(Frame(FIN, sid, []), stop, sizes, fault);
      assert ops[..|before|] == before;
      streams := streams - {sid};
      assert old(Conforming()) && sid in old(streams) ==> Conforming() by {
        E.ClosedConforms(old(E.Client(streamId, streams, Sent(ops))), sid, streams);
      }
    }
  }
}
