/** One incarnation of a tun2socks connection: the packet handler, the connector and the response
    reader run concurrently over two shared 32-bit atomics. */
module TcpBridge {
  import opened Bytes
  import opened TcpReceiver

  datatype Kind = SynAck | Data | PureAck | FinAck | Reset

  /** A segment written towards the app. */
  datatype Packet = Packet(kind: Kind, start: U32, ack: U32, data: seq<Byte>)

  /** Our initial sequence number, the app's first data position and the app's stream. */
  datatype Ids = Ids(isn: U32, base: U32, app: seq<Byte>)

  /** The connector: dialling upstream; sequence number set; entry published; acknowledgement
      loaded for the SYN-ACK; finished. Or the reset sent but the entry not removed yet; failed. */
  datatype Connector = Dialling | SeqStored | Published | AckLoaded(ack: U32) | Connected | ResetSent | Failed

  /** The response reader: not spawned; waiting upstream; numbers loaded for a segment; segment sent
      but the new sequence number not stored yet; numbers loaded for the closing segment; that sent but
      the table entry not removed yet; gone. */
  datatype Reader =
    | Unspawned
    | Waiting
    | Loaded(start: U32, ack: U32, data: seq<Byte>)
    | Sent(start: U32, len: nat)
    | Closing(start: U32, ack: U32, kind: Kind)
    | Leaving
    | Gone

  /** The packet handler: between packets; a segment judged; its bytes passed on; numbers loaded; or the
      acknowledgement loaded for a repeated SYN-ACK. */
  datatype Handler =
    | Idle
    | Judged(action: Action, payload: seq<Byte>)
    | PassedOn
    | Acking(start: U32, ack: U32)
    | Resyncing(ack: U32)

  /** From the app: the shared acknowledgement, the bytes passed upstream, how many passes the channel
      refused, and what the reference receiver has. */
  datatype Up = Up(ack: U32, forwarded: seq<Byte>, refusals: nat, have: nat, handler: Handler)

  /** To the app: the shared sequence number, the bytes read from upstream, the segments written. */
  datatype Down = Down(start: U32, server: seq<Byte>, out: seq<Packet>, reader: Reader)

  /** `present` and `connecting` are the connection table's entry. */
  datatype Conn = Conn(ids: Ids, present: bool, connecting: bool, connector: Connector, up: Up, down: Down)

  /** The first SYN: `syn` is the app's initial sequence number. */
  function Open(isn: U32, syn: U32, app: seq<Byte>): Conn {
    var base := Wrap(syn + 1);
    Conn(Ids(isn, base, app), true, true, Dialling, Up(base, [], 0, 0, Idle), Down(isn, [], [], Unspawned))
  }

  // The steps of the three routines: each touches shared state or the device once, except that finding
  // the entry still connecting and storing the sequence number, and publishing the entry and spawning
  // the reader, are one. An event that cannot happen changes nothing.

  datatype ConnectorEvent = ConnectOk | SendReset | Withdraw | Publish | LoadForSynAck | SendSynAck
  datatype ReaderEvent = ReadData(data: seq<Byte>) | SendData | StoreSeq | ReadEnd(kind: Kind) | SendEnd | Leave
  datatype HandlerEvent =
    | Segment(off: int, payload: seq<Byte>) | PassOn(refused: bool) | LoadForAck | SendAck
    | SynAgain | SendSynAgain | FinOrRst
  datatype Event = C(c: ConnectorEvent) | R(r: ReaderEvent) | H(h: HandlerEvent)

  function Emit(d: Down, p: Packet): Down {
    d.(out := d.out + [p])
  }

  function ConnectorStep(s: Conn, e: ConnectorEvent): Conn {
    match e
    case ConnectOk =>
      if s.connector != Dialling then s
      else if !s.present || !s.connecting then s.(connector := Failed)
      else s.(connector := SeqStored, down := s.down.(start := Wrap(s.ids.isn + 1)))
    case SendReset =>
      if s.connector != Dialling then s
      else s.(connector := ResetSent, down := Emit(s.down, Packet(Reset, 0, s.ids.base, [])))
    case Withdraw => if s.connector != ResetSent then s else s.(connector := Failed, present := false)
    case Publish =>
      if s.connector != SeqStored then s
      else s.(connector := Published, present := true, connecting := false, down := s.down.(reader := Waiting))
    case LoadForSynAck => if s.connector != Published then s else s.(connector := AckLoaded(s.up.ack))
    case SendSynAck =>
      if !s.connector.AckLoaded? then s
      else s.(connector := Connected, down := Emit(s.down, Packet(SynAck, s.ids.isn, s.connector.ack, [])))
  }

  function ReaderStep(d: Down, ack: U32, e: ReaderEvent): Down {
    match e
    case ReadData(data) =>
      if d.reader != Waiting || data == [] then d
      else d.(reader := Loaded(d.start, ack, data), server := d.server + data)
    case SendData =>
      if !d.reader.Loaded? then d
      else Emit(d, Packet(Data, d.reader.start, d.reader.ack, d.reader.data)).(reader := Sent(d.reader.start, |d.reader.data|))
    case StoreSeq =>
      if !d.reader.Sent? then d else d.(reader := Waiting, start := Wrap(d.reader.start + d.reader.len))
    case ReadEnd(kind) =>
      if d.reader != Waiting || (kind != FinAck && kind != Reset) then d
      else d.(reader := Closing(d.start, ack, kind))
    case SendEnd =>
      if !d.reader.Closing? then d
      else Emit(d, Packet(d.reader.kind, d.reader.start, d.reader.ack, [])).(reader := Leaving)
    case Leave => if d.reader != Leaving then d else d.(reader := Gone)
  }

  /** The payload of a segment that starts `off` bytes into the app's stream; what lies before the
      stream, as in a keep-alive, may be anything. */
  predicate FromStream(app: seq<Byte>, off: int, payload: seq<Byte>) {
    off + |payload| <= |app| && forall k :: 0 <= k < |payload| && 0 <= off + k ==> payload[k] == app[off + k]
  }

  function HandlerStep(s: Conn, e: HandlerEvent): Conn {
    var u := s.up;
    match e
    case Segment(off, payload) =>
      if u.handler != Idle || !s.present || s.connecting || payload == [] || !FromStream(s.ids.app, off, payload) then s
      else
        var v := Decide(u.ack, Wrap(s.ids.base + off), |payload|);
        s.(up := u.(handler := Judged(v.action, payload), ack := v.ack, have := RefNext(u.have, off, |payload|)))
    case PassOn(refused) =>
      if !u.handler.Judged? then s
      else if u.handler.action.AckOnly? || u.handler.action.off > |u.handler.payload| then s.(up := u.(handler := PassedOn))
      else if refused then s.(up := u.(handler := PassedOn, refusals := u.refusals + 1))
      else s.(up := u.(handler := PassedOn, forwarded := u.forwarded + u.handler.payload[u.handler.action.off..]))
    case LoadForAck =>
      if u.handler != PassedOn then s
      else s.(up := u.(handler := if s.present then Acking(s.down.start, u.ack) else Idle))
    case SendAck =>
      if !u.handler.Acking? then s
      else s.(up := u.(handler := Idle), down := Emit(s.down, Packet(PureAck, u.handler.start, u.handler.ack, [])))
    case SynAgain =>
      if u.handler != Idle || !s.present || s.connecting then s
      else s.(up := u.(handler := Resyncing(u.ack)))
    case SendSynAgain =>
      if !u.handler.Resyncing? then s
      else s.(up := u.(handler := Idle), down := Emit(s.down, Packet(SynAck, s.ids.isn, u.handler.ack, [])))
    case FinOrRst => if u.handler != Idle then s else s.(present := false)
  }

  function Next(s: Conn, e: Event): Conn {
    match e
    case C(c) => ConnectorStep(s, c)
    case R(r) =>
      var d := ReaderStep(s.down, s.up.ack, r);
      s.(down := d, present := s.present && (d.reader != Gone || s.down.reader == Gone))
    case H(h) => HandlerStep(s, h)
  }

  /** A segment-sized length, and not a whole wrap of the sequence space away. */
  ghost predicate Timely(s: Conn, e: Event) {
    e.H? && e.h.Segment? ==> |e.h.payload| < 0x8000_0000 && !Aliased(s.up.have, e.h.off, |e.h.payload|)
  }

  ghost predicate StepsTo(s: Conn, e: Event, t: Conn) {
    Timely(s, e) && t == Next(s, e)
  }

  /** A run: the states along a schedule of events. */
  ghost predicate IsRun(states: seq<Conn>, events: seq<Event>) {
    && |states| == |events| + 1
    && forall i :: 0 <= i < |events| ==> StepsTo(states[i], events[i], states[i + 1])
  }

  // ---- what the app sees ---------------------------------------------------------------------

  /** The server bytes carried by a list of segments. */
  function Carried(out: seq<Packet>): seq<Byte> {
    if out == [] then []
    else
      var n := |out| - 1;
      Carried(out[..n]) + if out[n].kind == Data then out[n].data else []
  }

  predicate At(number: U32, base: int, k: nat) {
    number == Wrap(base + k)
  }

  /** A sequence number at a boundary of what was sent: where some first part of the segments ends. */
  ghost predicate AtBoundary(number: U32, isn: U32, out: seq<Packet>) {
    exists j :: 0 <= j <= |out| && At(number, isn + 1, |Carried(out[..j])|)
  }

  /** The numbering of one segment, given the segments before it. */
  ghost predicate GoodPacket(p: Packet, before: seq<Packet>, isn: U32) {
    match p.kind
    case SynAck => p.start == isn && p.data == []
    case Data => At(p.start, isn + 1, |Carried(before)|) && p.data != []
    case PureAck => AtBoundary(p.start, isn, before) && p.data == []
    case FinAck => At(p.start, isn + 1, |Carried(before)|) && p.data == []
    case Reset => p.data == []
  }

  ghost predicate GoodAt(out: seq<Packet>, i: nat, isn: U32)
    requires i < |out|
  {
    GoodPacket(out[i], out[..i], isn)
  }

  ghost predicate GoodOutput(out: seq<Packet>, isn: U32) {
    forall i :: 0 <= i < |out| ==> GoodAt(out, i, isn)
  }

  lemma BoundaryStays(number: U32, isn: U32, out: seq<Packet>, p: Packet)
    requires AtBoundary(number, isn, out)
    ensures AtBoundary(number, isn, out + [p])
  {
    var j :| 0 <= j <= |out| && At(number, isn + 1, |Carried(out[..j])|);
    assert (out + [p])[..j] == out[..j];
  }

  lemma EndIsBoundary(number: U32, isn: U32, out: seq<Packet>)
    requires At(number, isn + 1, |Carried(out)|)
    ensures AtBoundary(number, isn, out)
  {
    assert out[..|out|] == out;
  }

  lemma GoodOutputSnoc(out: seq<Packet>, p: Packet, isn: U32)
    requires GoodOutput(out, isn) && GoodPacket(p, out, isn)
    ensures GoodOutput(out + [p], isn)
    ensures Carried(out + [p]) == Carried(out) + if p.kind == Data then p.data else []
  {
    var next := out + [p];
    assert next[..|out|] == out;
    forall i | 0 <= i < |next|
      ensures GoodAt(next, i, isn)
    {
      if i < |out| {
        assert GoodAt(out, i, isn);
        assert next[..i] == out[..i];
      }
    }
  }

  // ---- the invariant -------------------------------------------------------------------------

  /** The shared sequence number is at the end of what was sent, or at its end before the segment just
      sent. */
  ghost predicate ReaderInv(d: Down, isn: U32) {
    var sent := |Carried(d.out)|;
    match d.reader
    case Unspawned => d.server == Carried(d.out) == []
    case Loaded(start, ack, data) =>
      && d.server == Carried(d.out) + data && data != []
      && d.start == start && At(start, isn + 1, sent)
    case Sent(start, len) =>
      && d.server == Carried(d.out) && len <= sent
      && d.start == start && At(start, isn + 1, sent - len) && AtBoundary(start, isn, d.out)
    case Closing(start, ack, kind) =>
      && d.server == Carried(d.out) && (kind == FinAck || kind == Reset)
      && d.start == start && At(start, isn + 1, sent)
    case _ => d.server == Carried(d.out) && At(d.start, isn + 1, sent)
  }

  ghost predicate DownInv(d: Down, isn: U32) {
    GoodOutput(d.out, isn) && ReaderInv(d, isn)
  }

  /** Bytes are missing upstream only by refusal. */
  ghost predicate ForwardedUpTo(u: Up, app: seq<Byte>, k: nat) {
    && k <= |app|
    && |u.forwarded| + u.refusals <= k
    && (u.refusals == 0 ==> u.forwarded == app[..k])
  }

  /** The bytes judged but not yet passed on complete what has been forwarded. */
  ghost predicate UpInv(ids: Ids, u: Up) {
    && u.have <= |ids.app| && At(u.ack, ids.base, u.have)
    && match u.handler
       case Judged(Forward(off), payload) =>
         && off < |payload| && |payload| - off <= u.have
         && payload[off..] == ids.app[u.have - (|payload| - off)..u.have]
         && ForwardedUpTo(u, ids.app, u.have - (|payload| - off))
       case _ => ForwardedUpTo(u, ids.app, u.have)
  }

  /** Before the reader is spawned nothing but the connector moves. */
  ghost predicate SpawnInv(s: Conn) {
    if s.down.reader == Unspawned then
      && s.connecting && s.up.handler == Idle && s.up.have == 0
      && (s.connector == Dialling || s.connector == SeqStored || s.connector == ResetSent || s.connector == Failed)
      && (s.connector == SeqStored ==> At(s.down.start, s.ids.isn + 1, 0))
    else s.connector != Dialling && s.connector != SeqStored && s.connector != ResetSent
  }

  /** A number loaded for an acknowledgement was at a boundary, and stays at one. */
  ghost predicate AckingInv(s: Conn) {
    s.up.handler.Acking? ==> AtBoundary(s.up.handler.start, s.ids.isn, s.down.out)
  }

  ghost predicate Inv(s: Conn) {
    DownInv(s.down, s.ids.isn) && UpInv(s.ids, s.up) && SpawnInv(s) && AckingInv(s)
  }

  lemma StartAtBoundary(d: Down, isn: U32)
    requires ReaderInv(d, isn) && d.reader != Unspawned
    ensures AtBoundary(d.start, isn, d.out)
  {
    if !d.reader.Sent? { EndIsBoundary(d.start, isn, d.out); }
  }

  /** Emitting a good segment that carries no server bytes keeps the sending side. */
  lemma EmitKeeps(d: Down, p: Packet, isn: U32)
    requires DownInv(d, isn) && p.kind != Data && GoodPacket(p, d.out, isn)
    ensures DownInv(Emit(d, p), isn)
    ensures Carried(Emit(d, p).out) == Carried(d.out)
  {
    GoodOutputSnoc(d.out, p, isn);
    assert Carried(d.out) + [] == Carried(d.out);
    if d.reader.Sent? { BoundaryStays(d.start, isn, d.out, p); }
  }

  /** A routine other than the reader sends a segment without server bytes. */
  lemma SendKeeps(s: Conn, p: Packet, t: Conn)
    requires Inv(s) && p.kind != Data && GoodPacket(p, s.down.out, s.ids.isn)
    requires t == s.(connector := t.connector, up := t.up, down := Emit(s.down, p))
    requires t.up == s.up || t.up == s.up.(handler := Idle)
    requires UpInv(s.ids, t.up) && SpawnInv(t)
    ensures Inv(t)
  {
    assert DownInv(t.down, s.ids.isn) by { EmitKeeps(s.down, p, s.ids.isn); }
    if t.up.handler.Acking? { BoundaryStays(t.up.handler.start, s.ids.isn, s.down.out, p); }
  }

  lemma ConnectorKeeps(s: Conn, e: ConnectorEvent)
    requires Inv(s)
    ensures Inv(ConnectorStep(s, e))
  {
    var t := ConnectorStep(s, e);
    match e
    case ConnectOk =>
      assert At(Wrap(s.ids.isn + 1), s.ids.isn + 1, 0);
    case SendReset =>
      if s.connector == Dialling { SendKeeps(s, Packet(Reset, 0, s.ids.base, []), t); }
    case Withdraw =>
    case Publish =>
    case LoadForSynAck =>
    case SendSynAck =>
      if s.connector.AckLoaded? { SendKeeps(s, Packet(SynAck, s.ids.isn, s.connector.ack, []), t); }
  }

  lemma SendDataKeeps(d: Down, isn: U32)
    requires DownInv(d, isn) && d.reader.Loaded?
    ensures DownInv(ReaderStep(d, 0, SendData), isn)
  {
    var p := Packet(Data, d.reader.start, d.reader.ack, d.reader.data);
    GoodOutputSnoc(d.out, p, isn);
    EndIsBoundary(d.start, isn, d.out);
    BoundaryStays(d.start, isn, d.out, p);
  }

  lemma ReaderKeepsDown(d: Down, isn: U32, ack: U32, e: ReaderEvent)
    requires DownInv(d, isn)
    ensures DownInv(ReaderStep(d, ack, e), isn)
  {
    if e.SendData? && d.reader.Loaded? {
      SendDataKeeps(d, isn);
    } else if e.StoreSeq? && d.reader.Sent? {
      WrapSum(isn + 1 + |Carried(d.out)| - d.reader.len, d.reader.len);
    } else if e.SendEnd? && d.reader.Closing? {
      EmitKeeps(d, Packet(d.reader.kind, d.reader.start, d.reader.ack, []), isn);
    }
  }

  /** The reader only adds to the segments sent. */
  lemma ReaderKeepsBoundary(d: Down, isn: U32, ack: U32, e: ReaderEvent, number: U32)
    requires AtBoundary(number, isn, d.out)
    ensures AtBoundary(number, isn, ReaderStep(d, ack, e).out)
  {
    var t := ReaderStep(d, ack, e);
    if t.out != d.out { BoundaryStays(number, isn, d.out, t.out[|d.out|]); }
  }

  lemma ReaderKeeps(s: Conn, e: ReaderEvent)
    requires Inv(s)
    ensures Inv(Next(s, R(e)))
  {
    assert DownInv(ReaderStep(s.down, s.up.ack, e), s.ids.isn) by { ReaderKeepsDown(s.down, s.ids.isn, s.up.ack, e); }
    if s.up.handler.Acking? { ReaderKeepsBoundary(s.down, s.ids.isn, s.up.ack, e, s.up.handler.start); }
  }

  lemma SegmentKeepsUp(ids: Ids, u: Up, off: int, payload: seq<Byte>)
    requires UpInv(ids, u) && u.handler == Idle && FromStream(ids.app, off, payload)
    requires 0 < |payload| < 0x8000_0000 && !Aliased(u.have, off, |payload|)
    ensures var v := Decide(u.ack, Wrap(ids.base + off), |payload|);
            UpInv(ids, u.(handler := Judged(v.action, payload), ack := v.ack, have := RefNext(u.have, off, |payload|)))
  {
    var len, next := |payload|, RefNext(u.have, off, |payload|);
    assert Decide(u.ack, Wrap(ids.base + off), len) == Verdict(RefAction(u.have, off, len), Wrap(ids.base + next)) by {
      RefinesExactly(ids.base, u.have, off, len);
    }
    var v := u.(handler := Judged(RefAction(u.have, off, len), payload), ack := Wrap(ids.base + next), have := next);
    assert UpInv(ids, v) by { JudgedKeepsUp(ids, u, off, payload); }
  }

  lemma JudgedKeepsUp(ids: Ids, u: Up, off: int, payload: seq<Byte>)
    requires UpInv(ids, u) && u.handler == Idle && FromStream(ids.app, off, payload)
    ensures var next := RefNext(u.have, off, |payload|);
            UpInv(ids, u.(handler := Judged(RefAction(u.have, off, |payload|), payload),
                          ack := Wrap(ids.base + next), have := next))
  {
    if off <= u.have < off + |payload| {
      assert payload[u.have - off..] == ids.app[u.have..off + |payload|];
    }
  }

  lemma PassOnKeeps(ids: Ids, u: Up)
    requires UpInv(ids, u) && u.handler.Judged?
    ensures u.handler.action.AckOnly? ==> UpInv(ids, u.(handler := PassedOn))
    ensures u.handler.action.Forward? ==>
              && u.handler.action.off <= |u.handler.payload|
              && UpInv(ids, u.(handler := PassedOn, refusals := u.refusals + 1))
              && UpInv(ids, u.(handler := PassedOn, forwarded := u.forwarded + u.handler.payload[u.handler.action.off..]))
  {
    if u.handler.action.Forward? {
      var from := u.have - |u.handler.payload[u.handler.action.off..]|;
      assert ids.app[..from] + ids.app[from..u.have] == ids.app[..u.have];
    }
  }

  lemma SegmentKeeps(s: Conn, off: int, payload: seq<Byte>)
    requires Inv(s) && Timely(s, H(Segment(off, payload)))
    ensures Inv(HandlerStep(s, Segment(off, payload)))
  {
    if s.up.handler == Idle && s.present && !s.connecting && payload != [] && FromStream(s.ids.app, off, payload) {
      assert UpInv(s.ids, HandlerStep(s, Segment(off, payload)).up) by { SegmentKeepsUp(s.ids, s.up, off, payload); }
    }
  }

  lemma HandlerKeeps(s: Conn, e: HandlerEvent)
    requires Inv(s) && Timely(s, H(e))
    ensures Inv(HandlerStep(s, e))
  {
    var t := HandlerStep(s, e);
    match e
    case Segment(off, payload) => SegmentKeeps(s, off, payload);
    case PassOn(refused) => if s.up.handler.Judged? { PassOnKeeps(s.ids, s.up); }
    case LoadForAck => if s.up.handler == PassedOn { StartAtBoundary(s.down, s.ids.isn); }
    case SendAck =>
      if s.up.handler.Acking? { SendKeeps(s, Packet(PureAck, s.up.handler.start, s.up.handler.ack, []), t); }
    case SynAgain =>
    case SendSynAgain =>
      if s.up.handler.Resyncing? { SendKeeps(s, Packet(SynAck, s.ids.isn, s.up.handler.ack, []), t); }
    case FinOrRst =>
  }

  lemma NextKeeps(s: Conn, e: Event)
    requires Inv(s) && Timely(s, e)
    ensures Inv(Next(s, e)) && Next(s, e).ids == s.ids
  {
    match e
    case C(c) => ConnectorKeeps(s, c);
    case R(r) => ReaderKeeps(s, r);
    case H(h) => HandlerKeeps(s, h);
  }

  lemma OpenInv(isn: U32, syn: U32, app: seq<Byte>)
    ensures Inv(Open(isn, syn, app))
  {
  }

  lemma {:induction false} InvAlways(states: seq<Conn>, events: seq<Event>, n: nat)
    requires IsRun(states, events) && Inv(states[0]) && n < |states|
    ensures Inv(states[n]) && states[n].ids == states[0].ids
  {
    if n > 0 {
      InvAlways(states, events, n - 1);
      assert StepsTo(states[n - 1], events[n - 1], states[n]);
      NextKeeps(states[n - 1], events[n - 1]);
    }
  }

  // ---- acknowledgements ----------------------------------------------------------------------

  /** The acknowledgements in segments, and those loaded for the next ones, are among `held`. */
  ghost predicate AcksAmong(s: Conn, held: set<U32>) {
    && s.ids.base in held && s.up.ack in held
    && (forall i :: 0 <= i < |s.down.out| ==> s.down.out[i].ack in held)
    && (s.down.reader.Loaded? || s.down.reader.Closing? ==> s.down.reader.ack in held)
    && (s.connector.AckLoaded? ==> s.connector.ack in held)
    && (s.up.handler.Acking? || s.up.handler.Resyncing? ==> s.up.handler.ack in held)
  }

  lemma AcksMore(s: Conn, held: set<U32>, more: set<U32>)
    requires AcksAmong(s, held) && held <= more
    ensures AcksAmong(s, more)
  {
  }

  lemma NextAcks(s: Conn, e: Event, held: set<U32>)
    requires AcksAmong(s, held) && Next(s, e).up.ack in held
    ensures AcksAmong(Next(s, e), held)
  {
    match e
    case C(c) =>
    case R(r) =>
    case H(h) =>
  }

  /** The values the shared acknowledgement has held up to state n. */
  ghost function Held(states: seq<Conn>, n: nat): set<U32>
    requires n < |states|
  {
    set m | 0 <= m <= n :: states[m].up.ack
  }

  lemma {:induction false} AcksAlways(states: seq<Conn>, events: seq<Event>, n: nat)
    requires IsRun(states, events) && AcksAmong(states[0], {states[0].up.ack}) && n < |states|
    ensures AcksAmong(states[n], Held(states, n))
  {
    if n == 0 {
      assert states[0].up.ack in Held(states, 0);
      AcksMore(states[0], {states[0].up.ack}, Held(states, 0));
    } else {
      AcksAlways(states, events, n - 1);
      assert StepsTo(states[n - 1], events[n - 1], states[n]);
      assert states[n].up.ack in Held(states, n);
      AcksMore(states[n - 1], Held(states, n - 1), Held(states, n));
      NextAcks(states[n - 1], events[n - 1], Held(states, n));
    }
  }

  /** What is said of one acknowledgement: it was the shared value, hence the end of what had been
      received in order, at some moment up to n. */
  ghost predicate AcksReceived(states: seq<Conn>, n: nat, ack: U32, base: U32) {
    exists m :: 0 <= m <= n < |states| && ack == states[m].up.ack && At(ack, base, states[m].up.have)
  }

  /** Over every interleaving of the three routines: data segments tile the server's stream contiguously
      from isn + 1, modulo 2^32; a pure acknowledgement is numbered at a boundary between data segments
      sent before it and a closing segment at their end; every SYN-ACK, first or repeated, carries the
      initial sequence number; and every segment acknowledges exactly what had been received in order
      at some earlier moment. */
  lemma OutputIsSound(isn: U32, syn: U32, app: seq<Byte>, states: seq<Conn>, events: seq<Event>, n: nat, i: nat)
    requires IsRun(states, events) && states[0] == Open(isn, syn, app)
    requires n < |states| && i < |states[n].down.out|
    ensures var d := states[n].down;
            && GoodPacket(d.out[i], d.out[..i], isn)
            && AcksReceived(states, n, d.out[i].ack, Wrap(syn + 1))
            && Carried(d.out) <= d.server && (!d.reader.Loaded? ==> Carried(d.out) == d.server)
  {
    var d := states[n].down;
    assert Inv(states[n]) && states[n].ids.isn == isn by {
      OpenInv(isn, syn, app);
      InvAlways(states, events, n);
    }
    assert GoodAt(d.out, i, isn);
    AcksAlways(states, events, n);
    var m :| 0 <= m <= n && states[m].up.ack == d.out[i].ack;
    AckAlways(isn, syn, app, states, events, m);
  }

  lemma IdlePrefix(ids: Ids, u: Up)
    requires UpInv(ids, u) && u.handler == Idle
    ensures u.have <= |ids.app| && u.ack == Wrap(ids.base + u.have)
    ensures u.refusals == 0 <==> u.forwarded == ids.app[..u.have]
  {
  }

  /** Over every interleaving, once the handler is between packets, the bytes passed upstream are the
      acknowledged prefix of the app's stream exactly when the channel refused none. */
  lemma UpstreamIsPrefix(isn: U32, syn: U32, app: seq<Byte>, states: seq<Conn>, events: seq<Event>, n: nat)
    requires IsRun(states, events) && states[0] == Open(isn, syn, app)
    requires n < |states| && states[n].up.handler == Idle
    ensures var u := states[n].up;
            && u.have <= |app| && u.ack == Wrap(Wrap(syn + 1) + u.have)
            && (u.refusals == 0 <==> u.forwarded == app[..u.have])
  {
    OpenInv(isn, syn, app);
    InvAlways(states, events, n);
    IdlePrefix(states[n].ids, states[n].up);
  }

  lemma HaveGrows(s: Conn, e: Event)
    requires Timely(s, e)
    ensures s.up.have <= Next(s, e).up.have < s.up.have + 0x8000_0000
  {
  }

  lemma AckAlways(isn: U32, syn: U32, app: seq<Byte>, states: seq<Conn>, events: seq<Event>, n: nat)
    requires IsRun(states, events) && states[0] == Open(isn, syn, app)
    requires n < |states|
    ensures states[n].up.ack == Wrap(Wrap(syn + 1) + states[n].up.have)
  {
    OpenInv(isn, syn, app);
    InvAlways(states, events, n);
  }

  /** Over every interleaving the shared acknowledgement never moves backwards in serial-number
      arithmetic, and neither do the bytes received. */
  lemma AckNeverRetreats(isn: U32, syn: U32, app: seq<Byte>, states: seq<Conn>, events: seq<Event>, n: nat)
    requires IsRun(states, events) && states[0] == Open(isn, syn, app)
    requires n < |events|
    ensures 0 <= Behind(states[n + 1].up.ack, states[n].up.ack)
    ensures states[n].up.have <= states[n + 1].up.have
  {
    var u, v := states[n].up, states[n + 1].up;
    assert u.have <= v.have < u.have + 0x8000_0000 by {
      assert StepsTo(states[n], events[n], states[n + 1]);
      HaveGrows(states[n], events[n]);
    }
    AckAlways(isn, syn, app, states, events, n);
    AckAlways(isn, syn, app, states, events, n + 1);
    BehindIsDistance(Wrap(syn + 1), u.have, v.have);
  }

  // ---- what the routines do ------------------------------------------------------------------

  /** A segment that finds the handler between packets and the connection established. */
  ghost predicate Received(s: Conn, e: Event) {
    && e.H? && e.h.Segment? && s.up.handler == Idle && s.present && !s.connecting
    && e.h.payload != [] && FromStream(s.ids.app, e.h.off, e.h.payload)
  }

  /** How many bytes an unbounded receiver has after the segments among the first n events. */
  ghost function ReferenceHave(states: seq<Conn>, events: seq<Event>, n: nat): nat
    requires n <= |events| < |states|
  {
    if n == 0 then 0
    else
      var k, e := ReferenceHave(states, events, n - 1), events[n - 1];
      if Received(states[n - 1], e) then RefNext(k, e.h.off, |e.h.payload|) else k
  }

  /** Over every interleaving, every segment received counts: the acknowledgement is that of an unbounded
      receiver that is given exactly those segments. */
  lemma {:induction false} AcksLikeReference(isn: U32, syn: U32, app: seq<Byte>, states: seq<Conn>, events: seq<Event>, n: nat)
    requires IsRun(states, events) && states[0] == Open(isn, syn, app) && n <= |events|
    ensures states[n].up.have == ReferenceHave(states, events, n)
    ensures states[n].up.ack == Wrap(Wrap(syn + 1) + ReferenceHave(states, events, n))
  {
    AckAlways(isn, syn, app, states, events, n);
    if n > 0 {
      AcksLikeReference(isn, syn, app, states, events, n - 1);
      assert StepsTo(states[n - 1], events[n - 1], states[n]);
    }
  }

  /** The bytes of the reads among the first n events that found the reader waiting. */
  ghost function ReadUpstream(states: seq<Conn>, events: seq<Event>, n: nat): seq<Byte>
    requires n <= |events| < |states|
  {
    if n == 0 then []
    else
      var e := events[n - 1];
      ReadUpstream(states, events, n - 1) +
      if e.R? && e.r.ReadData? && states[n - 1].down.reader == Waiting then e.r.data else []
  }

  lemma StepReads(s: Conn, e: Event)
    ensures Next(s, e).down.server ==
            s.down.server + if e.R? && e.r.ReadData? && s.down.reader == Waiting then e.r.data else []
  {
  }

  /** Over every interleaving, what is sent towards the app is what was read upstream. */
  lemma {:induction false} ServerIsRead(isn: U32, syn: U32, app: seq<Byte>, states: seq<Conn>, events: seq<Event>, n: nat)
    requires IsRun(states, events) && states[0] == Open(isn, syn, app) && n <= |events|
    ensures states[n].down.server == ReadUpstream(states, events, n)
  {
    if n > 0 {
      ServerIsRead(isn, syn, app, states, events, n - 1);
      assert StepsTo(states[n - 1], events[n - 1], states[n]);
      StepReads(states[n - 1], events[n - 1]);
    }
  }

  lemma JudgedAs(ids: Ids, u: Up, off: int, payload: seq<Byte>)
    requires UpInv(ids, u) && 0 < |payload| < 0x8000_0000 && !Aliased(u.have, off, |payload|)
    ensures var next := RefNext(u.have, off, |payload|);
            Decide(u.ack, Wrap(ids.base + off), |payload|) == Verdict(RefAction(u.have, off, |payload|), Wrap(ids.base + next))
  {
    RefinesExactly(ids.base, u.have, off, |payload|);
  }

  /** The receiving side once the new bytes of a segment were passed on, or refused. */
  function PassedUp(s: Conn, next: nat, refused: bool, handler: Handler): Up
    requires s.up.have <= next <= |s.ids.app|
  {
    var u, news := s.up, s.ids.app[s.up.have..next];
    Up(Wrap(s.ids.base + next), if refused then u.forwarded else u.forwarded + news,
       if refused && news != [] then u.refusals + 1 else u.refusals, next, handler)
  }

  lemma SegmentPassed(s: Conn, off: int, payload: seq<Byte>, refused: bool)
    requires UpInv(s.ids, s.up) && Received(s, H(Segment(off, payload))) && Timely(s, H(Segment(off, payload)))
    ensures var next := RefNext(s.up.have, off, |payload|);
            && s.up.have <= next <= |s.ids.app|
            && Next(Next(s, H(Segment(off, payload))), H(PassOn(refused))) == s.(up := PassedUp(s, next, refused, PassedOn))
  {
    var u, len, next := s.up, |payload|, RefNext(s.up.have, off, |payload|);
    JudgedAs(s.ids, u, off, payload);
    if off <= u.have < off + len {
      assert payload[u.have - off..] == s.ids.app[u.have..next];
    } else {
      assert s.ids.app[u.have..next] == [] && u.forwarded + [] == u.forwarded;
    }
  }

  lemma AckSent(s: Conn)
    requires s.up.handler == PassedOn && s.present
    ensures Next(Next(s, H(LoadForAck)), H(SendAck)) ==
            s.(up := s.up.(handler := Idle), down := Emit(s.down, Packet(PureAck, s.down.start, s.up.ack, [])))
  {
  }

  /** What the handler makes of one segment: its new bytes, none for a duplicate or a gap, go upstream
      unless the channel refuses them, and one acknowledgement of what is then received goes back. */
  lemma SegmentHandled(s: Conn, off: int, payload: seq<Byte>, refused: bool)
    requires Inv(s) && Received(s, H(Segment(off, payload))) && Timely(s, H(Segment(off, payload)))
    ensures var next := RefNext(s.up.have, off, |payload|);
            && s.up.have <= next <= |s.ids.app|
            && Next(Next(Next(Next(s, H(Segment(off, payload))), H(PassOn(refused))), H(LoadForAck)), H(SendAck)) ==
               s.(up := PassedUp(s, next, refused, Idle),
                  down := Emit(s.down, Packet(PureAck, s.down.start, Wrap(s.ids.base + next), [])))
  {
    var next := RefNext(s.up.have, off, |payload|);
    SegmentPassed(s, off, payload, refused);
    AckSent(s.(up := PassedUp(s, next, refused, PassedOn)));
  }

  /** What the reader makes of one read: one data segment at the shared sequence number, which moves on. */
  lemma ReadIsSent(s: Conn, data: seq<Byte>)
    requires s.down.reader == Waiting && data != []
    ensures var d := s.down;
            Next(Next(Next(s, R(ReadData(data))), R(SendData)), R(StoreSeq)) ==
            s.(down := Down(Wrap(d.start + |data|), d.server + data, d.out + [Packet(Data, d.start, s.up.ack, data)], Waiting))
  {
  }

  /** At the end of the stream it sends one closing segment, of the kind the end calls for, and removes the
      entry. */
  lemma EndIsSent(s: Conn, kind: Kind)
    requires s.down.reader == Waiting && (kind == FinAck || kind == Reset)
    ensures Next(Next(Next(s, R(ReadEnd(kind))), R(SendEnd)), R(Leave)) ==
            s.(present := false, down := s.down.(out := s.down.out + [Packet(kind, s.down.start, s.up.ack, [])], reader := Gone))
  {
  }

  /** The handshake: a connection that comes up is published with its reader waiting behind the SYN, and
      announced by one SYN-ACK; one that does not is reset and removed; one the app has given up is left
      alone. */
  lemma Handshake(isn: U32, syn: U32, app: seq<Byte>)
    ensures var s, base := Open(isn, syn, app), Wrap(syn + 1);
            && Next(Next(Next(Next(s, C(ConnectOk)), C(Publish)), C(LoadForSynAck)), C(SendSynAck)) ==
               Conn(Ids(isn, base, app), true, false, Connected, Up(base, [], 0, 0, Idle),
                    Down(Wrap(isn + 1), [], [Packet(SynAck, isn, base, [])], Waiting))
            && Next(Next(s, C(SendReset)), C(Withdraw)) ==
               s.(connector := Failed, present := false, down := s.down.(out := [Packet(Reset, 0, base, [])]))
            && Next(Next(s, H(FinOrRst)), C(ConnectOk)) == s.(present := false, connector := Failed)
  {
  }

  /** A repeated SYN on an established connection is answered by one SYN-ACK; a FIN or RST between packets
      removes the entry. */
  lemma ControlPackets(s: Conn)
    requires s.up.handler == Idle
    ensures s.present && !s.connecting ==>
              Next(Next(s, H(SynAgain)), H(SendSynAgain)) == s.(down := Emit(s.down, Packet(SynAck, s.ids.isn, s.up.ack, [])))
    ensures !s.present || s.connecting ==> Next(s, H(SynAgain)) == s
    ensures Next(s, H(FinOrRst)) == s.(present := false)
  {
  }

  /** A segment for an entry that is not there, or not connected, is ignored; and if the entry goes while
      a segment is being passed on, no acknowledgement follows. */
  lemma NoEntryNoAnswer(s: Conn, off: int, payload: seq<Byte>)
    ensures !s.present || s.connecting ==> Next(s, H(Segment(off, payload))) == s
    ensures !s.present && s.up.handler == PassedOn ==> Next(s, H(LoadForAck)) == s.(up := s.up.(handler := Idle))
  {
  }

  // ---- a refused send ------------------------------------------------------------------------

  /** A connected connection whose app sends the one byte `b`. */
  function OneByte(isn: U32, syn: U32, b: Byte, u: Up): Conn {
    Conn(Ids(isn, Wrap(syn + 1), [b]), true, false, Published, u, Down(Wrap(isn + 1), [], [], Waiting))
  }

  lemma ConnectsInTwo(isn: U32, syn: U32, b: Byte)
    ensures var s := Open(isn, syn, [b]);
            Next(Next(s, C(ConnectOk)), C(Publish)) == OneByte(isn, syn, b, Up(Wrap(syn + 1), [], 0, 0, Idle))
  {
  }

  lemma ByteIsJudged(isn: U32, syn: U32, b: Byte)
    ensures var base := Wrap(syn + 1);
            var s := OneByte(isn, syn, b, Up(base, [], 0, 0, Idle));
            var t := OneByte(isn, syn, b, Up(Wrap(base + 1), [], 0, 1, Judged(Forward(0), [b])));
            StepsTo(s, H(Segment(0, [b])), t)
  {
    var base := Wrap(syn + 1);
    RefinesExactly(base, 0, 0, 1);
    assert Wrap(base + 0) == base;
  }

  /** The failure is reachable: in this run the only byte the app sends is refused by the channel, and
      acknowledged all the same. */
  lemma RefusedByteIsAcknowledged(isn: U32, syn: U32, b: Byte) returns (states: seq<Conn>, events: seq<Event>)
    ensures IsRun(states, events) && |states| == 7 && states[0] == Open(isn, syn, [b])
    ensures var u := states[6].up;
            && u.handler == Idle && u.have == 1 && u.ack == Wrap(Wrap(syn + 1) + 1) && u.forwarded == []
            && states[6].down.out == [Packet(PureAck, Wrap(isn + 1), u.ack, [])]
  {
    var base: int := Wrap(syn + 1);
    var ack := Wrap(base + 1);
    var s0 := Open(isn, syn, [b]);
    var s1 := Next(s0, C(ConnectOk));
    var s2 := OneByte(isn, syn, b, Up(base, [], 0, 0, Idle));
    var s3 := OneByte(isn, syn, b, Up(ack, [], 0, 1, Judged(Forward(0), [b])));
    var s4 := OneByte(isn, syn, b, Up(ack, [], 1, 1, PassedOn));
    var s5 := OneByte(isn, syn, b, Up(ack, [], 1, 1, Acking(Wrap(isn + 1), ack)));
    var s6 := Next(s5, H(SendAck));
    states := [s0, s1, s2, s3, s4, s5, s6];
    events := [C(ConnectOk), C(Publish), H(Segment(0, [b])), H(PassOn(true)), H(LoadForAck), H(SendAck)];
    assert StepsTo(s0, events[0], s1);
    assert StepsTo(s1, events[1], s2) by { ConnectsInTwo(isn, syn, b); }
    assert StepsTo(s2, events[2], s3) by { ByteIsJudged(isn, syn, b); }
    assert StepsTo(s3, events[3], s4);
    assert StepsTo(s4, events[4], s5);
    assert StepsTo(s5, events[5], s6);
  }
}
