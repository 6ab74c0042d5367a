/** From the client's stream writes to the bytes offered on the server, across padding, record
    splits, buffering, other streams, connection failures and local closes. */
module EndToEnd {
  import opened Bytes
  import opened Frames
  import W = SessionWriter
  import R = SessionReader

  datatype Phase = Unopened | Live | Finished

  /** Where a stream id stands after the given frames. */
  function PhaseOf(frames: seq<Frame>, sid: U32): Phase {
    if frames == [] then Unopened
    else
      var n := |frames| - 1;
      if frames[n].sid != sid then PhaseOf(frames[..n], sid)
      else if frames[n].cmd == SYN then Live
      else if frames[n].cmd == FIN then Finished
      else PhaseOf(frames[..n], sid)
  }

  /** The concatenation of a stream's data frames. */
  function Payload(frames: seq<Frame>, sid: U32): seq<Byte> {
    if frames == [] then []
    else
      var n := |frames| - 1;
      Payload(frames[..n], sid) + if frames[n].cmd == PSH && frames[n].sid == sid then frames[n].data else []
  }

  /** A client keeps to the protocol: each stream id is opened once, written while open, closed once,
      and the client never sends an alert or an open result. */
  predicate Conforms(frames: seq<Frame>) {
    if frames == [] then true
    else
      var n := |frames| - 1;
      var f, phase := frames[n], PhaseOf(frames[..n], frames[n].sid);
      && Conforms(frames[..n])
      && (f.cmd == SYN ==> phase == Unopened)
      && (f.cmd == PSH || f.cmd == FIN ==> phase == Live)
      && f.cmd != ALERT && f.cmd != SYNACK
      && (n == 0 ==> f.cmd == SETTINGS && f.data != [])
  }

  lemma {:induction false} ConformingPrefix(frames: seq<Frame>, n: nat)
    requires n <= |frames| && Conforms(frames)
    ensures Conforms(frames[..n])
    decreases |frames|
  {
    if n < |frames| {
      ConformingPrefix(frames[..|frames| - 1], n);
      assert frames[..|frames| - 1][..n] == frames[..n];
    } else {
      assert frames[..n] == frames;
    }
  }

  lemma {:induction false} PayloadPrefix(frames: seq<Frame>, n: nat, sid: U32)
    requires n <= |frames|
    ensures Payload(frames[..n], sid) <= Payload(frames, sid)
    decreases |frames|
  {
    if n < |frames| {
      PayloadPrefix(frames[..|frames| - 1], n, sid);
      assert frames[..|frames| - 1][..n] == frames[..n];
    } else {
      assert frames[..n] == frames;
    }
  }

  // ---- the client's own histories ------------------------------------------------------------

  /** What is done with a session once it has started: a stream is opened, written to or closed. */
  datatype Use = Opens | Writes(sid: U32, data: seq<Byte>) | Closes(sid: U32)

  /** The last id given out, the open streams, the frames sent. */
  datatype Client = Client(last: U32, live: set<U32>, frames: seq<Frame>)

  /** Only open streams are written to or closed, and ids do not run out. */
  predicate Proper(c: Client, u: Use) {
    match u
    case Opens => c.last + 1 < 0x1_0000_0000
    case Writes(sid, _) => sid in c.live
    case Closes(sid) => sid in c.live
  }

  function Used(c: Client, u: Use): Client {
    match u
    case Opens =>
      var sid := (c.last + 1) % 0x1_0000_0000;
      Client(sid, c.live + {sid}, c.frames + [Frame(SYN, sid, [])])
    case Writes(sid, data) => c.(frames := c.frames + [Frame(PSH, sid, data)])
    case Closes(sid) => c.(live := c.live - {sid}, frames := c.frames + [Frame(FIN, sid, [])])
  }

  /** Open streams are live on the wire, and ids not given out are unused. */
  ghost predicate ClientInv(c: Client) {
    && c.frames != [] && Conforms(c.frames)
    && (forall sid :: sid in c.live ==> PhaseOf(c.frames, sid) == Live)
    && (forall sid: U32 :: sid > c.last ==> PhaseOf(c.frames, sid) == Unopened)
  }

  function PhaseAfter(phase: Phase, f: Frame, sid: U32): Phase {
    if f.sid == sid && f.cmd == SYN then Live else if f.sid == sid && f.cmd == FIN then Finished else phase
  }

  lemma PhaseSnoc(frames: seq<Frame>, f: Frame, sid: U32)
    ensures PhaseOf(frames + [f], sid) == PhaseAfter(PhaseOf(frames, sid), f, sid)
  {
    assert (frames + [f])[..|frames|] == frames;
  }

  lemma ConformsSnoc(frames: seq<Frame>, f: Frame)
    requires Conforms(frames) && frames != [] && (f.cmd == SYN || f.cmd == PSH || f.cmd == FIN)
    requires PhaseOf(frames, f.sid) == if f.cmd == SYN then Unopened else Live
    ensures Conforms(frames + [f])
  {
    assert (frames + [f])[..|frames|] == frames;
  }

  lemma StartConforms(settings: seq<Byte>)
    requires settings != []
    ensures ClientInv(Client(0, {}, [Frame(SETTINGS, 0, settings)]))
  {
    var frames := [Frame(SETTINGS, 0, settings)];
    assert frames[..0] == [];
  }

  lemma UsedConforms(c: Client, u: Use)
    requires ClientInv(c) && Proper(c, u)
    ensures ClientInv(Used(c, u))
  {
    var t := Used(c, u);
    var f := t.frames[|c.frames|];
    ConformsSnoc(c.frames, f);
    forall sid: U32 ensures PhaseOf(t.frames, sid) == PhaseAfter(PhaseOf(c.frames, sid), f, sid) {
      PhaseSnoc(c.frames, f, sid);
    }
  }

  /** A client that failed to register what it opened, or to keep the rest, still conforms. */
  lemma OpenedConforms(c: Client, live: set<U32>)
    ensures ClientInv(c) && Proper(c, Opens) && live <= Used(c, Opens).live ==> ClientInv(Used(c, Opens).(live := live))
  {
    if ClientInv(c) && Proper(c, Opens) { UsedConforms(c, Opens); }
  }

  lemma ClosedConforms(c: Client, sid: U32, live: set<U32>)
    ensures ClientInv(c) && sid in c.live && live <= c.live - {sid} ==> ClientInv(Used(c, Closes(sid)).(live := live))
  {
    if ClientInv(c) && sid in c.live { UsedConforms(c, Closes(sid)); }
  }

  ghost function History(settings: seq<Byte>, uses: seq<Use>): Client {
    if uses == [] then Client(0, {}, [Frame(SETTINGS, 0, settings)])
    else Used(History(settings, uses[..|uses| - 1]), uses[|uses| - 1])
  }

  /** Every history of a client that starts with its settings and uses only open streams conforms. */
  lemma {:induction false} HistoriesConform(settings: seq<Byte>, uses: seq<Use>)
    requires settings != [] && forall i :: 0 <= i < |uses| ==> Proper(History(settings, uses[..i]), uses[i])
    ensures ClientInv(History(settings, uses))
    decreases |uses|
  {
    if uses == [] {
      StartConforms(settings);
    } else {
      var n := |uses| - 1;
      forall i | 0 <= i < n ensures Proper(History(settings, uses[..n][..i]), uses[..n][i]) {
        assert uses[..n][..i] == uses[..i];
      }
      HistoriesConform(settings, uses[..n]);
      UsedConforms(History(settings, uses[..n]), uses[n]);
    }
  }

  /** The frames among a run of events, and whether the stream was closed locally. */
  ghost function Arrived(events: seq<R.Event>): seq<Frame> {
    if events == [] then []
    else
      var n := |events| - 1;
      Arrived(events[..n]) + if events[n].Arrive? then [events[n].frame] else []
  }

  ghost predicate ClosedLocally(events: seq<R.Event>, sid: U32) {
    R.LocalClose(sid) in events || R.CloseSession in events
  }

  /** What the receiver may have offered, given the meaningful frames that arrived. */
  ghost predicate Delivered(o: R.One, frames: seq<Frame>, sid: U32, closed: bool) {
    && |o.openings| <= 1 && (o.closed ==> closed)
    && (if o.openings == [] then !o.live && (PhaseOf(frames, sid) == Unopened || o.closed)
        else PhaseOf(frames, sid) != Unopened && o.openings[0] <= Payload(frames, sid))
    && (o.live ==> !o.closed && PhaseOf(frames, sid) == Live)
    && (o.openings != [] && (o.live || !closed) ==> o.openings[0] == Payload(frames, sid))
    && (!closed && PhaseOf(frames, sid) == Live ==> o.live)
  }

  lemma ProjectSnoc(events: seq<R.Event>, sid: U32)
    requires events != []
    ensures var n := |events| - 1;
            var o := R.OneRun(R.Project(events[..n], sid));
            R.OneRun(R.Project(events, sid)) == if R.Concerns(events[n], sid) then R.OneStep(o, events[n]) else o
  {
    var n := |events| - 1;
    var p := R.Project(events[..n], sid);
    if R.Concerns(events[n], sid) {
      assert (p + [events[n]])[..|p|] == p;
    } else {
      assert p + [] == p;
    }
  }

  /** The meaningful frame an event brings, if any. */
  ghost function Brings(e: R.Event): seq<Frame> {
    if e.Arrive? && e.frame.cmd != WASTE then [e.frame] else []
  }

  ghost function Meaningful(events: seq<R.Event>): seq<Frame> {
    NonWaste(Arrived(events))
  }

  lemma MeaningfulSnoc(events: seq<R.Event>)
    requires events != []
    ensures var n := |events| - 1; Meaningful(events) == Meaningful(events[..n]) + Brings(events[n])
  {
    var n := |events| - 1;
    var before := Arrived(events[..n]);
    if events[n].Arrive? {
      NonWasteAppend(before, [events[n].frame]);
      NonWasteCons(events[n].frame, []);
      assert [events[n].frame] + [] == [events[n].frame];
    } else {
      assert before + [] == before;
    }
  }

  lemma UnopenedHasNoPayload(frames: seq<Frame>, sid: U32)
    requires Conforms(frames) && PhaseOf(frames, sid) == Unopened
    ensures Payload(frames, sid) == []
    decreases |frames|
  {
    if frames != [] {
      var n := |frames| - 1;
      UnopenedHasNoPayload(frames[..n], sid);
    }
  }

  /** One frame of a conforming client keeps the relation. */
  lemma FrameDelivers(o: R.One, frames: seq<Frame>, f: Frame, sid: U32, closed: bool)
    requires Conforms(frames + [f]) && Delivered(o, frames, sid, closed)
    ensures Delivered(if R.Concerns(R.Arrive(f), sid) then R.OneStep(o, R.Arrive(f)) else o, frames + [f], sid, closed)
  {
    var all := frames + [f];
    assert all[..|frames|] == frames && all[|frames|] == f;
    if f.sid == sid && f.cmd == SYN {
      UnopenedHasNoPayload(frames, sid);
    } else if f.sid == sid && f.cmd == PSH {
      assert Payload(all, sid) == Payload(frames, sid) + f.data;
    } else {
      assert Payload(all, sid) == Payload(frames, sid);
    }
  }

  lemma EventDelivers(o: R.One, frames: seq<Frame>, e: R.Event, sid: U32, closed: bool)
    requires Conforms(frames + Brings(e)) && Delivered(o, frames, sid, closed)
    ensures Delivered(if R.Concerns(e, sid) then R.OneStep(o, e) else o, frames + Brings(e), sid,
                      closed || e == R.LocalClose(sid) || e == R.CloseSession)
  {
    if Brings(e) == [] {
      assert frames + [] == frames;
    } else {
      FrameDelivers(o, frames, e.frame, sid, closed);
    }
  }

  lemma ClosedSnoc(events: seq<R.Event>, sid: U32)
    requires events != []
    ensures var n := |events| - 1;
            ClosedLocally(events, sid) ==
            (ClosedLocally(events[..n], sid) || events[n] == R.LocalClose(sid) || events[n] == R.CloseSession)
  {
    assert events == events[..|events| - 1] + [events[|events| - 1]];
  }

  /** The relation after a list of events. */
  ghost predicate DeliveredAfter(events: seq<R.Event>, sid: U32) {
    Delivered(R.OneRun(R.Project(events, sid)), Meaningful(events), sid, ClosedLocally(events, sid))
  }

  lemma DeliversOneMore(events: seq<R.Event>, sid: U32)
    requires events != [] && Conforms(Meaningful(events)) && DeliveredAfter(events[..|events| - 1], sid)
    ensures DeliveredAfter(events, sid)
  {
    var before, e := events[..|events| - 1], events[|events| - 1];
    var o, frames, closed := R.OneRun(R.Project(before, sid)), Meaningful(before), ClosedLocally(before, sid);
    MeaningfulSnoc(events);
    ProjectSnoc(events, sid);
    ClosedSnoc(events, sid);
    EventDelivers(o, frames, e, sid, closed);
  }

  lemma {:induction false} EventsDeliver(events: seq<R.Event>, sid: U32)
    requires Conforms(Meaningful(events))
    ensures DeliveredAfter(events, sid)
    decreases |events|
  {
    if events != [] {
      var before, e := events[..|events| - 1], events[|events| - 1];
      assert Conforms(Meaningful(before)) by {
        MeaningfulSnoc(events);
        ConformingBefore(Meaningful(before), e);
      }
      assert DeliveredAfter(before, sid) by { EventsDeliver(before, sid); }
      assert DeliveredAfter(events, sid) by { DeliversOneMore(events, sid); }
    }
  }

  lemma ConformingBefore(frames: seq<Frame>, e: R.Event)
    requires Conforms(frames + Brings(e))
    ensures Conforms(frames)
  {
    ConformingPrefix(frames + Brings(e), |frames|);
    assert (frames + Brings(e))[..|frames|] == frames;
  }

  lemma StepNeverStops(frames: seq<Frame>, s: R.In, e: R.Event)
    requires R.Valid(s) && Conforms(frames + Brings(e)) && (frames != [] && !s.stopped ==> s.settings)
    ensures !R.Errs(s, e)
    ensures R.Step(s, e).stopped <==> s.stopped || e == R.CloseSession
    ensures frames + Brings(e) != [] && !R.Step(s, e).stopped ==> R.Step(s, e).settings
  {
    if Brings(e) != [] {
      assert (frames + [e.frame])[..|frames|] == frames;
    }
  }

  /** A conforming client is never cut off by the server: its session ends only by being closed. */
  lemma {:induction false} NeverStopped(events: seq<R.Event>)
    requires Conforms(Meaningful(events))
    ensures R.WellBehaved(events)
    ensures R.Run(events).stopped <==> R.CloseSession in events
    ensures Meaningful(events) != [] && !R.Run(events).stopped ==> R.Run(events).settings
    decreases |events|
  {
    if events != [] {
      var n := |events| - 1;
      var before, e := events[..n], events[n];
      assert events == before + [e];
      assert Meaningful(events) == Meaningful(before) + Brings(e) by { MeaningfulSnoc(events); }
      assert Conforms(Meaningful(before)) by { ConformingBefore(Meaningful(before), e); }
      NeverStopped(before);
      StepNeverStops(Meaningful(before), R.Run(before), e);
      assert R.WellBehaved(before + [e]) by { R.WellBehavedSnoc(before, e); }
    }
  }

  /** End to end: for every run of a conforming client over a possibly failing connection, and every
      run of the server over the frames that got through, the server offers to the stream's pipe the
      bytes of its data frames that got through, in order, and nothing else; it offers less only if
      its own side closed the stream or the session, and the client's bytes are all there once the
      buffer is flushed and no write failed. */
  lemma StreamBytesSurvive(ops: seq<W.Op>, events: seq<R.Event>, sid: U32)
    requires W.GoodRun(ops) && Conforms(W.Sent(ops))
    requires Arrived(events) == ParseAll(Flatten(W.Exec(ops).wire)).frames
    ensures
      var sent, wire := W.Sent(ops), W.Meaning(Flatten(W.Exec(ops).wire));
      var got := R.Openings(R.Run(events).accepted, sid);
      && (R.Run(events).stopped <==> R.CloseSession in events)
      && wire <= sent
      && (PhaseOf(wire, sid) == Unopened ==> got == [])
      && (got == [] ==> PhaseOf(wire, sid) == Unopened || R.CloseSession in events)
      && (got != [] ==> |got| == 1 && got[0] <= Payload(wire, sid) <= Payload(sent, sid))
      && (got != [] && !ClosedLocally(events, sid) ==> got[0] == Payload(wire, sid))
      && (W.Faultless(ops) && W.Exec(ops).buffer == [] ==> wire == sent)
  {
    var sent, wire := W.Sent(ops), W.Meaning(Flatten(W.Exec(ops).wire));
    W.AnyRunDeliversPrefix(ops);
    assert sent[..|wire|] == wire;
    ConformingPrefix(sent, |wire|);
    PayloadPrefix(sent, |wire|, sid);
    NeverStopped(events);
    R.StreamsAreIndependent(events, sid);
    EventsDeliver(events, sid);
    if W.Faultless(ops) && W.Exec(ops).buffer == [] {
      W.RunKeepsMeaning(ops);
      assert W.Meaning([]) == [];
    }
  }

  // ---- joined to the receive loop ------------------------------------------------------------

  lemma {:induction false} ArrivedAppend(a: seq<R.Event>, b: seq<R.Event>)
    ensures Arrived(a + b) == Arrived(a) + Arrived(b)
    decreases |b|
  {
    if b == [] {
      assert a + b == a;
    } else {
      var n := |b| - 1;
      assert (a + b)[..|a| + n] == a + b[..n] && (a + b)[|a| + n] == b[n];
      ArrivedAppend(a, b[..n]);
      ConcatAssociative(Arrived(a), Arrived(b[..n]), if b[n].Arrive? then [b[n].frame] else []);
    }
  }

  lemma {:induction false} LocalsBringNothing(events: seq<R.Event>)
    requires forall i :: 0 <= i < |events| ==> !events[i].Arrive?
    ensures Arrived(events) == []
    decreases |events|
  {
    if events != [] { LocalsBringNothing(events[..|events| - 1]); }
  }

  /** The frames among what the receive loop lives through are those it reads. */
  lemma {:induction false} ArrivedWeave(frames: seq<Frame>, others: seq<seq<R.Event>>, k: nat)
    requires R.AllLocal(others)
    ensures Arrived(R.Weave(frames, others, k)) == frames
    decreases |frames|
  {
    if frames != [] {
      var before, arrival, rest := R.Before(others, k), [R.Arrive(frames[0])], R.Weave(frames[1..], others, k + 1);
      LocalsBringNothing(before);
      ArrivedAppend(before, arrival);
      ArrivedAppend(before + arrival, rest);
      assert arrival[..0] == [] && Arrived(arrival) == [frames[0]];
      ArrivedWeave(frames[1..], others, k + 1);
      assert [] + [frames[0]] + frames[1..] == frames;
    }
  }

  /** What the server holds for a stream, given the frames sent and those that reached the wire: nothing
      if it was not opened; its data that reached the wire, all of it unless something was closed. */
  ghost predicate Holds(got: seq<seq<Byte>>, sent: seq<Frame>, wire: seq<Frame>, sid: U32, closed: bool) {
    && wire <= sent && |got| <= 1
    && (PhaseOf(wire, sid) == Unopened ==> got == [])
    && (got != [] ==> got[0] <= Payload(wire, sid) <= Payload(sent, sid))
    && (!closed ==> if PhaseOf(wire, sid) == Unopened then got == [] else got == [Payload(wire, sid)])
  }

  /** From the client's calls to what the receive loop leaves: the server reads the client's wire, with
      streams or the session closed in between, and holds for every stream what the client wrote. */
  method Transfer(ghost ops: seq<W.Op>, input: seq<Byte>, others: seq<seq<R.Event>>) returns (accepted: seq<R.Accepted>)
    requires W.GoodRun(ops) && Conforms(W.Sent(ops)) && R.AllLocal(others)
    requires input == Flatten(W.Exec(ops).wire)
    ensures forall sid: U32 :: Holds(R.Openings(accepted, sid), W.Sent(ops), W.Meaning(input), sid,
                                     ClosedLocally(R.Weave(ParseAll(input).frames, others, 0), sid))
    ensures W.Faultless(ops) && W.Exec(ops).buffer == [] ==> W.Meaning(input) == W.Sent(ops)
  {
    var server := new R.ServerSession();
    server.RecvLoop(input, others);
    accepted := server.accepted;
    ghost var events := R.Weave(ParseAll(input).frames, others, 0);
    ArrivedWeave(ParseAll(input).frames, others, 0);
    forall sid: U32
      ensures Holds(R.Openings(accepted, sid), W.Sent(ops), W.Meaning(input), sid, ClosedLocally(events, sid))
    {
      StreamBytesSurvive(ops, events, sid);
    }
    StreamBytesSurvive(ops, events, 0);
  }
}
