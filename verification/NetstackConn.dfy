/** One TCP connection of the userspace network stack: what a service turn does to its table entry and
    its socket. The socket's own protocol engine is a parameter: which state closing leads to, how much
    it accepts, what it received. */
module NetstackConn {
  import opened Bytes

  datatype Phase =
    | Listen | SynSent | SynReceived | Established | FinWait1 | FinWait2 | CloseWait | Closing | LastAck | TimeWait | Closed

  /** Where the receiving half of the channel to the application is. */
  datatype Receiver = Held | Handed | Dropped

  datatype Cause = Requested | AppGone | PeerClosed

  /** A call of the socket's close, with the number of bytes then still pending. */
  datatype Close = Close(cause: Cause, left: nat)

  /** `received` is all that ever arrived and `sent` all that was ever handed over; `rx` is unread. */
  datatype Socket = Socket(phase: Phase, rx: seq<Byte>, received: seq<Byte>, sent: seq<Byte>)

  /** A table entry. `fromApp`, `toApp` and `closes` record what went through it. */
  datatype Conn = Conn(
    req: Option<nat>, receiver: Receiver, pending: seq<Byte>, established: bool, halfClosed: bool,
    fromApp: seq<Byte>, toApp: seq<seq<Byte>>, closes: seq<Close>)

  datatype Link = Link(conn: Conn, sock: Socket)

  datatype Permit = Granted | Full | Gone

  /** The answer of the application's channel, and how many contiguous bytes the socket then offers. */
  datatype Grant = Grant(permit: Permit, size: nat)

  /** Past the recorded answers the channel is full. */
  function At(grants: seq<Grant>, k: nat): Grant {
    if k < |grants| then grants[k] else Grant(Full, 0)
  }

  datatype Turn = Turn(canSend: bool, accepts: nat, grants: seq<Grant>)

  const MAX_RECV_CHUNKS: nat := 128

  function Opened(req: Option<nat>, phase: Phase): Link {
    Link(Conn(req, Held, [], false, false, [], [], []), Socket(phase, [], [], []))
  }

  function FromApp(c: Conn, data: seq<Byte>): Conn {
    c.(pending := c.pending + data, fromApp := c.fromApp + data)
  }

  datatype Observed = Observed(conn: Conn, reply: bool, offered: bool)

  /** The first sight of an established socket: the request and the receiver are both taken out before
      it is known whether there are two; only then is the receiver looked for again. */
  function Observe(c: Conn): Observed {
    var taken := c.(established := true, req := None, receiver := if c.receiver.Held? then Dropped else c.receiver);
    if c.req.Some? && c.receiver.Held? then Observed(taken.(receiver := Handed), true, false)
    else if taken.receiver.Held? then Observed(taken.(receiver := Handed), false, true)
    else Observed(taken, false, false)
  }

  function Shut(l: Link, cause: Cause, close: Phase -> Phase): Link {
    Link(l.conn.(closes := l.conn.closes + [Close(cause, |l.conn.pending|)]), l.sock.(phase := close(l.sock.phase)))
  }

  function Flush(l: Link, turn: Turn): Link {
    if !turn.canSend then l
    else
      var n := if turn.accepts < |l.conn.pending| then turn.accepts else |l.conn.pending|;
      Link(l.conn.(pending := l.conn.pending[n..]), l.sock.(sent := l.sock.sent + l.conn.pending[..n]))
  }

  function HalfClose(l: Link, close: Phase -> Phase): Link {
    if l.conn.halfClosed && l.conn.pending == [] then Shut(l, Requested, close) else l
  }

  /** A channel whose receiver was dropped is closed; one whose receiver is still in the table is not. */
  function Reserve(receiver: Receiver, permit: Permit): Permit {
    match receiver
    case Dropped => Gone
    case Held => if permit.Gone? then Full else permit
    case Handed => permit
  }

  /** The socket yields a contiguous, non-empty part of what it holds. */
  function ChunkSize(rx: seq<Byte>, size: nat): (n: nat)
    requires rx != []
    ensures 0 < n <= |rx| && (0 < size <= |rx| ==> n == size)
  {
    if size == 0 then 1 else if size < |rx| then size else |rx|
  }

  function Take(l: Link, size: nat): Link
    requires l.sock.rx != []
  {
    var n := ChunkSize(l.sock.rx, size);
    Link(l.conn.(toApp := l.conn.toApp + [l.sock.rx[..n]]), l.sock.(rx := l.sock.rx[n..]))
  }

  datatype Pull = Pull(link: Link, gone: bool, busy: bool)

  function Receive(l: Link, grants: seq<Grant>, k: nat): Pull
    decreases MAX_RECV_CHUNKS - k, grants
  {
    if k >= MAX_RECV_CHUNKS then Pull(l, false, false)
    else
      match Reserve(l.conn.receiver, At(grants, k).permit)
      case Full => Pull(l, false, true)
      case Gone => Pull(l, true, false)
      case Granted => if l.sock.rx == [] then Pull(l, false, false) else Receive(Take(l, At(grants, k).size), grants, k + 1)
  }

  /** The delivery loop. */
  method ReceiveLoop(start: Link, grants: seq<Grant>) returns (p: Pull)
    ensures p == Receive(start, grants, 0)
  {
    var conn, sock := start.conn, start.sock;
    var gone, busy, k := false, false, 0;
    while k < MAX_RECV_CHUNKS
      invariant k <= MAX_RECV_CHUNKS && !gone && !busy
      invariant Receive(start, grants, 0) == Receive(Link(conn, sock), grants, k)
    {
      var grant := At(grants, k);
      var permit := Reserve(conn.receiver, grant.permit);
      if permit.Full? { busy := true; break; }
      if permit.Gone? { gone := true; break; }
      if sock.rx == [] { break; }
      ghost var before := Link(conn, sock);
      var n := if grant.size == 0 then 1 else if grant.size < |sock.rx| then grant.size else |sock.rx|;
      var chunk := sock.rx[..n];
      sock := sock.(rx := sock.rx[n..]);
      conn := conn.(toApp := conn.toApp + [chunk]);
      assert Link(conn, sock) == Take(before, grant.size);
      k := k + 1;
    }
    p := Pull(Link(conn, sock), gone, busy);
  }

  datatype Outcome = Outcome(link: Link, reply: Option<bool>, offered: bool, removed: bool, busy: bool)

  /** The end of a turn, after the delivery loop. */
  function Finish(p: Pull, close: Phase -> Phase): Link {
    var l := if p.gone then Shut(p.link, AppGone, close) else p.link;
    if l.sock.phase == CloseWait then Shut(l, PeerClosed, close) else l
  }

  predicate Finished(p: Pull, close: Phase -> Phase) {
    (if p.gone then Shut(p.link, AppGone, close) else p.link).sock.phase == Closed && p.link.conn.established
  }

  /** Whether this turn first sees the socket established, or finds it dead before that. */
  predicate Establishes(l: Link) { !l.conn.established && l.sock.phase == Established }
  predicate Refuses(l: Link) { !l.conn.established && (l.sock.phase == Closed || l.sock.phase == TimeWait) }

  function Seen(l: Link): Observed {
    if Establishes(l) then Observe(l.conn) else Observed(l.conn, false, false)
  }

  /** The link once pending bytes were handed to the socket. */
  function Flushed(l: Link, turn: Turn): Link {
    Flush(Link(Seen(l).conn, l.sock), turn)
  }

  function Pulled(l: Link, turn: Turn, close: Phase -> Phase): Pull {
    Receive(HalfClose(Flushed(l, turn), close), turn.grants, 0)
  }

  /** One iteration of the service loop. */
  function Serve(l: Link, turn: Turn, close: Phase -> Phase): Outcome {
    if Refuses(l) then
      Outcome(l.(conn := l.conn.(req := None)), if l.conn.req.Some? then Some(false) else None, false, true, false)
    else
      var seen, p := Seen(l), Pulled(l, turn, close);
      Outcome(Finish(p, close), if seen.reply then Some(true) else None, seen.offered, Finished(p, close), p.busy)
  }

  /** The same iteration, step by step: the established check, */
  method NoteEstablished(l: Link) returns (seen: Observed)
    ensures seen == Seen(l)
  {
    var conn, reply, offered := l.conn, false, false;
    if !conn.established && l.sock.phase == Established {
      var resp, rx := conn.req, conn.receiver;
      conn := conn.(established := true, req := None, receiver := if rx.Held? then Dropped else rx);
      if resp.Some? && rx.Held? {
        conn, reply := conn.(receiver := Handed), true;
      } else if conn.receiver.Held? {
        conn, offered := conn.(receiver := Handed), true;
      }
    }
    seen := Observed(conn, reply, offered);
  }

  /** the closes after delivery, */
  method CloseOut(p: Pull, close: Phase -> Phase) returns (l: Link, removed: bool)
    ensures l == Finish(p, close) && removed == Finished(p, close)
  {
    l := p.link;
    if p.gone { l := Shut(l, AppGone, close); }
    var state := l.sock.phase;
    if state == CloseWait { l := Shut(l, PeerClosed, close); }
    removed := state == Closed && l.conn.established;
  }

  /** and the whole. */
  method ServiceLink(start: Link, turn: Turn, close: Phase -> Phase) returns (o: Outcome)
    ensures o == Serve(start, turn, close)
  {
    var seen := NoteEstablished(start);
    if !seen.conn.established && (start.sock.phase == Closed || start.sock.phase == TimeWait) {
      var reply := if seen.conn.req.Some? then Some(false) else None;
      return Outcome(Link(seen.conn.(req := None), start.sock), reply, false, true, false);
    }
    var l := Flush(Link(seen.conn, start.sock), turn);
    if l.conn.halfClosed && l.conn.pending == [] { l := Shut(l, Requested, close); }
    var p := ReceiveLoop(l, turn.grants);
    var end, removed := CloseOut(p, close);
    o := Outcome(end, if seen.reply then Some(true) else None, seen.offered, removed, p.busy);
  }

  // ---- bytes ---------------------------------------------------------------------------------

  /** What the application wrote is what the socket got followed by what is pending; what arrived is what
      the application was given followed by what is unread. */
  ghost predicate Streams(l: Link) {
    l.conn.fromApp == l.sock.sent + l.conn.pending && l.sock.received == Flatten(l.conn.toApp) + l.sock.rx
  }

  lemma FlushKeepsStreams(l: Link, turn: Turn)
    requires Streams(l)
    ensures Streams(Flush(l, turn))
  {
    var n := if turn.accepts < |l.conn.pending| then turn.accepts else |l.conn.pending|;
    assert l.conn.pending[..n] + l.conn.pending[n..] == l.conn.pending;
    ConcatAssociative(l.sock.sent, l.conn.pending[..n], l.conn.pending[n..]);
  }

  lemma TakeKeepsStreams(l: Link, size: nat)
    requires Streams(l) && l.sock.rx != []
    ensures Streams(Take(l, size))
  {
    var n := ChunkSize(l.sock.rx, size);
    FlattenSnoc(l.conn.toApp, l.sock.rx[..n]);
    assert l.sock.rx[..n] + l.sock.rx[n..] == l.sock.rx;
    ConcatAssociative(Flatten(l.conn.toApp), l.sock.rx[..n], l.sock.rx[n..]);
  }

  /** The delivery loop only moves bytes from the socket to the application. */
  lemma {:induction false} ReceiveShape(l: Link, grants: seq<Grant>, k: nat)
    ensures var r := Receive(l, grants, k).link;
            && r.conn == l.conn.(toApp := r.conn.toApp) && r.sock == l.sock.(rx := r.sock.rx)
    decreases MAX_RECV_CHUNKS - k
  {
    if k < MAX_RECV_CHUNKS && Reserve(l.conn.receiver, At(grants, k).permit).Granted? && l.sock.rx != [] {
      ReceiveShape(Take(l, At(grants, k).size), grants, k + 1);
    }
  }

  lemma {:induction false} ReceiveKeepsStreams(l: Link, grants: seq<Grant>, k: nat)
    requires Streams(l)
    ensures Streams(Receive(l, grants, k).link)
    decreases MAX_RECV_CHUNKS - k
  {
    if k < MAX_RECV_CHUNKS && Reserve(l.conn.receiver, At(grants, k).permit).Granted? && l.sock.rx != [] {
      TakeKeepsStreams(l, At(grants, k).size);
      ReceiveKeepsStreams(Take(l, At(grants, k).size), grants, k + 1);
    }
  }

  /** Closing changes the socket's state and the record of closes, nothing else. */
  ghost predicate OnlyCloses(l: Link, m: Link) {
    && m.conn == l.conn.(closes := m.conn.closes) && m.sock == l.sock.(phase := m.sock.phase)
    && l.conn.closes <= m.conn.closes
  }

  lemma FinishShape(p: Pull, close: Phase -> Phase)
    ensures OnlyCloses(p.link, Finish(p, close))
  {
  }

  lemma HalfCloseShape(l: Link, close: Phase -> Phase)
    ensures OnlyCloses(l, HalfClose(l, close))
  {
  }

  lemma ClosingKeepsStreams(l: Link, m: Link)
    requires Streams(l) && OnlyCloses(l, m)
    ensures Streams(m)
  {
  }

  lemma ServeKeepsStreams(l: Link, turn: Turn, close: Phase -> Phase)
    requires Streams(l)
    ensures Streams(Serve(l, turn, close).link)
  {
    if !Refuses(l) {
      var f := Flushed(l, turn);
      var h := HalfClose(f, close);
      var p := Pulled(l, turn, close);
      assert Streams(f) by { FlushKeepsStreams(Link(Seen(l).conn, l.sock), turn); }
      assert Streams(h) by { HalfCloseShape(f, close); ClosingKeepsStreams(f, h); }
      assert Streams(p.link) by { ReceiveKeepsStreams(h, turn.grants, 0); }
      assert Streams(Finish(p, close)) by { FinishShape(p, close); ClosingKeepsStreams(p.link, Finish(p, close)); }
    }
  }

  // ---- closing -------------------------------------------------------------------------------

  /** A close asked for by the application waits until nothing is pending. */
  ghost predicate Orderly(closes: seq<Close>) {
    forall i :: 0 <= i < |closes| && closes[i].cause == Requested ==> closes[i].left == 0
  }

  /** The closes of one turn, in order. */
  function TurnCloses(f: Link, p: Pull, close: Phase -> Phase): seq<Close> {
    RequestedCloses(f) + EndCloses(p, |f.conn.pending|, close)
  }

  function RequestedCloses(f: Link): seq<Close> {
    if f.conn.halfClosed && f.conn.pending == [] then [Close(Requested, 0)] else []
  }

  function EndCloses(p: Pull, left: nat, close: Phase -> Phase): seq<Close> {
    (if p.gone then [Close(AppGone, left)] else [])
    + (if (if p.gone then close(p.link.sock.phase) else p.link.sock.phase) == CloseWait then [Close(PeerClosed, left)] else [])
  }

  lemma FinishCloses(p: Pull, close: Phase -> Phase)
    ensures Finish(p, close).conn.closes == p.link.conn.closes + EndCloses(p, |p.link.conn.pending|, close)
  {
  }

  lemma HalfCloseCloses(f: Link, close: Phase -> Phase)
    ensures HalfClose(f, close).conn.closes == f.conn.closes + RequestedCloses(f)
    ensures f.conn.pending != [] ==> HalfClose(f, close) == f
  {
  }

  lemma TurnClosesExactly(l: Link, turn: Turn, close: Phase -> Phase)
    requires !Refuses(l)
    ensures var f, p := Flushed(l, turn), Pulled(l, turn, close);
            && Serve(l, turn, close).link.conn.closes == l.conn.closes + TurnCloses(f, p, close)
            && (f.conn.pending != [] ==> p.link.sock.phase == l.sock.phase)
  {
    var f := Flushed(l, turn);
    var h := HalfClose(f, close);
    var p := Pulled(l, turn, close);
    assert p.link.conn.closes == h.conn.closes && p.link.conn.pending == f.conn.pending && p.link.sock.phase == h.sock.phase by {
      ReceiveShape(h, turn.grants, 0);
    }
    assert f.conn.closes == l.conn.closes && f.sock.phase == l.sock.phase;
    HalfCloseCloses(f, close);
    FinishCloses(p, close);
    ConcatAssociative(l.conn.closes, RequestedCloses(f), EndCloses(p, |f.conn.pending|, close));
  }

  lemma ServeKeepsOrderly(l: Link, turn: Turn, close: Phase -> Phase)
    requires Orderly(l.conn.closes)
    ensures Orderly(Serve(l, turn, close).link.conn.closes)
  {
    if !Refuses(l) {
      TurnClosesExactly(l, turn, close);
      assert Orderly(TurnCloses(Flushed(l, turn), Pulled(l, turn, close), close));
    }
  }

  // ---- closed forms --------------------------------------------------------------------------

  /** Some pending bytes are not taken by the socket. */
  predicate LeavesPending(c: Conn, turn: Turn) {
    c.pending != [] && (!turn.canSend || turn.accepts < |c.pending|)
  }

  /** Where the receiver is once the turn has looked at the socket's state. */
  function ReceiverIn(l: Link): Receiver {
    if Establishes(l) && l.conn.receiver.Held? then (if l.conn.req.Some? then Handed else Dropped) else l.conn.receiver
  }

  /** How many chunks it takes to empty the socket from the k-th on. */
  function Need(rx: seq<Byte>, grants: seq<Grant>, k: nat): nat
    decreases |rx|
  {
    if rx == [] then 0 else 1 + Need(rx[ChunkSize(rx, At(grants, k).size)..], grants, k + 1)
  }

  /** How many permits in a row the channel grants from the k-th on, up to the limit. */
  function Room(receiver: Receiver, grants: seq<Grant>, k: nat): nat
    decreases MAX_RECV_CHUNKS - k, grants
  {
    if k >= MAX_RECV_CHUNKS || !Reserve(receiver, At(grants, k).permit).Granted? then 0
    else 1 + Room(receiver, grants, k + 1)
  }

  /** The loop empties the socket exactly if the permits suffice, and notices that the application is gone
      exactly if it gets as far as the refusal. */
  lemma {:induction false} ReceiveExactly(l: Link, grants: seq<Grant>, k: nat)
    requires k <= MAX_RECV_CHUNKS
    ensures var p, need, room := Receive(l, grants, k), Need(l.sock.rx, grants, k), Room(l.conn.receiver, grants, k);
            && (p.link.sock.rx == [] <==> need <= room)
            && (p.gone <==> room <= need && k + room < MAX_RECV_CHUNKS
                            && Reserve(l.conn.receiver, At(grants, k + room).permit).Gone?)
    decreases MAX_RECV_CHUNKS - k
  {
    if k < MAX_RECV_CHUNKS && Reserve(l.conn.receiver, At(grants, k).permit).Granted? && l.sock.rx != [] {
      ReceiveExactly(Take(l, At(grants, k).size), grants, k + 1);
    }
  }

  /** The permits counted are those up to the first that is not granted, and 128 at most. */
  lemma {:induction false} RoomExactly(receiver: Receiver, grants: seq<Grant>, k: nat)
    requires k <= 128
    ensures var end := k + Room(receiver, grants, k);
            && end <= 128 && (end == 128 || !Reserve(receiver, At(grants, end).permit).Granted?)
            && (forall i :: k <= i < end ==> Reserve(receiver, At(grants, i).permit).Granted?)
    decreases 128 - k
  {
    if k < 128 && Reserve(receiver, At(grants, k).permit).Granted? {
      RoomExactly(receiver, grants, k + 1);
    }
  }

  /** Likewise it reports a full channel exactly if it gets as far as one. */
  lemma {:induction false} BusyExactly(l: Link, grants: seq<Grant>, k: nat)
    requires k <= MAX_RECV_CHUNKS
    ensures var need, room := Need(l.sock.rx, grants, k), Room(l.conn.receiver, grants, k);
            Receive(l, grants, k).busy <==>
              room <= need && k + room < MAX_RECV_CHUNKS && Reserve(l.conn.receiver, At(grants, k + room).permit).Full?
    decreases MAX_RECV_CHUNKS - k
  {
    if k < MAX_RECV_CHUNKS && Reserve(l.conn.receiver, At(grants, k).permit).Granted? && l.sock.rx != [] {
      BusyExactly(Take(l, At(grants, k).size), grants, k + 1);
    }
  }

  /** The turn finds the application's channel gone. */
  predicate FindsGone(l: Link, turn: Turn) {
    var r, room := ReceiverIn(l), Room(ReceiverIn(l), turn.grants, 0);
    room <= Need(l.sock.rx, turn.grants, 0) && room < MAX_RECV_CHUNKS && Reserve(r, At(turn.grants, room).permit).Gone?
  }

  /** While the table still holds the receiver the channel is never found gone; once it is dropped it always
      is, and nothing more is delivered. */
  lemma ReceiverDecides(l: Link, turn: Turn)
    ensures ReceiverIn(l) == Held ==> !FindsGone(l, turn)
    ensures ReceiverIn(l) == Dropped ==> FindsGone(l, turn) && Room(ReceiverIn(l), turn.grants, 0) == 0
  {
  }

  /** The permits of the turn suffice for what the socket holds. */
  predicate Drains(l: Link, turn: Turn) {
    Need(l.sock.rx, turn.grants, 0) <= Room(ReceiverIn(l), turn.grants, 0)
  }

  /** The first m chunks the socket yields from the k-th on. */
  function Chunks(rx: seq<Byte>, grants: seq<Grant>, k: nat, m: nat): seq<seq<Byte>>
    decreases m
  {
    if m == 0 || rx == [] then []
    else
      var n := ChunkSize(rx, At(grants, k).size);
      [rx[..n]] + Chunks(rx[n..], grants, k + 1, m - 1)
  }

  function Least(a: nat, b: nat): nat {
    if a < b then a else b
  }

  /** The loop delivers one chunk for every permit granted, as long as there are chunks. */
  lemma {:induction false} ReceiveDelivers(l: Link, grants: seq<Grant>, k: nat)
    requires k <= MAX_RECV_CHUNKS
    ensures var need, room := Need(l.sock.rx, grants, k), Room(l.conn.receiver, grants, k);
            Receive(l, grants, k).link.conn.toApp == l.conn.toApp + Chunks(l.sock.rx, grants, k, Least(need, room))
    decreases MAX_RECV_CHUNKS - k
  {
    if k < MAX_RECV_CHUNKS && Reserve(l.conn.receiver, At(grants, k).permit).Granted? && l.sock.rx != [] {
      var t := Take(l, At(grants, k).size);
      var need, room := Need(t.sock.rx, grants, k + 1), Room(l.conn.receiver, grants, k + 1);
      ReceiveDelivers(t, grants, k + 1);
      var first, rest := t.conn.toApp[|l.conn.toApp|], Chunks(t.sock.rx, grants, k + 1, Least(need, room));
      ConcatAssociative(l.conn.toApp, [first], rest);
    }
  }

  /** How much of what is pending the socket takes in a turn. */
  function Takes(c: Conn, turn: Turn): (n: nat)
    ensures n <= |c.pending|
  {
    if turn.canSend then Least(turn.accepts, |c.pending|) else 0
  }

  /** The entry once the turn has looked at the socket's state and handed it what it takes. */
  lemma FlushedIs(l: Link, turn: Turn)
    ensures var f, c, m := Flushed(l, turn), l.conn, Takes(l.conn, turn);
            && f.sock == l.sock.(sent := l.sock.sent + c.pending[..m]) && f.conn.pending == c.pending[m..]
            && f.conn.receiver == ReceiverIn(l) && f.conn.toApp == c.toApp && f.conn.fromApp == c.fromApp
            && f.conn.halfClosed == c.halfClosed && f.conn.closes == c.closes
            && f.conn.established == (c.established || Establishes(l))
            && (f.conn.pending == [] <==> !LeavesPending(c, turn))
  {
  }

  /** What the rest of the turn changes: what it delivers, and the closes. */
  lemma TurnShape(f: Link, turn: Turn, close: Phase -> Phase)
    ensures var p := Receive(HalfClose(f, close), turn.grants, 0);
            var o := Finish(p, close);
            && o.conn == f.conn.(toApp := p.link.conn.toApp, closes := o.conn.closes)
            && o.sock == f.sock.(phase := o.sock.phase, rx := p.link.sock.rx)
            && p.link.conn.established == f.conn.established && p.link.sock.phase == HalfClose(f, close).sock.phase
  {
    var h := HalfClose(f, close);
    var p := Receive(h, turn.grants, 0);
    assert OnlyCloses(f, h) by { HalfCloseShape(f, close); }
    ReceiveShape(h, turn.grants, 0);
    assert OnlyCloses(p.link, Finish(p, close)) by { FinishShape(p, close); }
  }

  /** What the delivery loop of the turn does, told from the link it starts from. */
  lemma TurnDelivers(f: Link, turn: Turn, close: Phase -> Phase)
    ensures var p := Receive(HalfClose(f, close), turn.grants, 0);
            var need, room := Need(f.sock.rx, turn.grants, 0), Room(f.conn.receiver, turn.grants, 0);
            && p.link.conn.toApp == f.conn.toApp + Chunks(f.sock.rx, turn.grants, 0, Least(need, room))
            && (p.link.sock.rx == [] <==> need <= room)
            && (p.gone <==> room <= need && room < MAX_RECV_CHUNKS && Reserve(f.conn.receiver, At(turn.grants, room).permit).Gone?)
  {
    var h := HalfClose(f, close);
    assert OnlyCloses(f, h) by { HalfCloseShape(f, close); }
    ReceiveDelivers(h, turn.grants, 0);
    ReceiveExactly(h, turn.grants, 0);
  }

  /** What a turn moves, exactly: the socket gets the first pending bytes, as many as it takes; the
      application gets a chunk for every permit, as long as there are chunks. */
  lemma TurnMoves(l: Link, turn: Turn, close: Phase -> Phase)
    requires !Refuses(l)
    ensures var o, m := Serve(l, turn, close).link, Takes(l.conn, turn);
            && o.sock.sent == l.sock.sent + l.conn.pending[..m] && o.conn.pending == l.conn.pending[m..]
            && o.conn.toApp == l.conn.toApp + Chunks(l.sock.rx, turn.grants, 0,
                 Least(Need(l.sock.rx, turn.grants, 0), Room(ReceiverIn(l), turn.grants, 0)))
            && o.conn.fromApp == l.conn.fromApp && o.conn.halfClosed == l.conn.halfClosed
            && o.conn.established == (l.conn.established || Establishes(l))
  {
    FlushedIs(l, turn);
    TurnShape(Flushed(l, turn), turn, close);
    TurnDelivers(Flushed(l, turn), turn, close);
  }

  lemma TurnExactly(l: Link, turn: Turn, close: Phase -> Phase)
    requires !Refuses(l)
    ensures var p, o := Pulled(l, turn, close), Serve(l, turn, close).link;
            && (p.gone <==> FindsGone(l, turn)) && (o.sock.rx == [] <==> Drains(l, turn))
            && (o.conn.pending != [] <==> LeavesPending(l.conn, turn)) && o.conn.pending == Flushed(l, turn).conn.pending
            && o.conn.receiver == ReceiverIn(l) && o.sock.received == l.sock.received
  {
    FlushedIs(l, turn);
    TurnShape(Flushed(l, turn), turn, close);
    TurnDelivers(Flushed(l, turn), turn, close);
  }

  /** The application asked for a close, and the turn leaves nothing pending. */
  predicate ClosesNow(l: Link, turn: Turn) {
    l.conn.halfClosed && !LeavesPending(l.conn, turn)
  }

  /** The socket's state once the closes asked for by the application, or due to its absence, are made. */
  function Settles(l: Link, turn: Turn, close: Phase -> Phase): Phase {
    var asked := if ClosesNow(l, turn) then close(l.sock.phase) else l.sock.phase;
    if FindsGone(l, turn) then close(asked) else asked
  }

  lemma FinishPhase(p: Pull, close: Phase -> Phase)
    ensures var q := if p.gone then close(p.link.sock.phase) else p.link.sock.phase;
            && Finish(p, close).sock.phase == (if q == CloseWait then close(q) else q)
            && (Finished(p, close) <==> q == Closed && p.link.conn.established)
  {
  }

  /** The closes of a turn, exactly: one if the application asked and nothing is left pending, one if the
      application is found gone, one if the socket is then in CloseWait; the socket goes through each of
      them; and the entry goes exactly if it is established and its socket was dead before the last. */
  lemma TurnShuts(l: Link, turn: Turn, close: Phase -> Phase)
    requires !Refuses(l)
    ensures var o, q := Serve(l, turn, close), Settles(l, turn, close);
            var left := |l.conn.pending| - Takes(l.conn, turn);
            && o.link.conn.closes == l.conn.closes
               + ((if ClosesNow(l, turn) then [Close(Requested, 0)] else [])
                  + ((if FindsGone(l, turn) then [Close(AppGone, left)] else [])
                     + (if q == CloseWait then [Close(PeerClosed, left)] else [])))
            && o.link.sock.phase == (if q == CloseWait then close(q) else q)
            && (o.removed <==> q == Closed && (l.conn.established || Establishes(l)))
  {
    var f, p := Flushed(l, turn), Pulled(l, turn, close);
    FlushedIs(l, turn);
    assert p.gone <==> FindsGone(l, turn) by { TurnDelivers(f, turn, close); }
    assert p.link.conn.established == f.conn.established && p.link.sock.phase == HalfClose(f, close).sock.phase by {
      TurnShape(f, turn, close);
    }
    assert p.link.sock.phase == if ClosesNow(l, turn) then close(l.sock.phase) else l.sock.phase;
    FinishPhase(p, close);
    TurnClosesExactly(l, turn, close);
  }

  /** Some close of the turn came while bytes were pending. */
  ghost predicate ClosedEarly(before: Conn, after: Conn) {
    exists i :: |before.closes| <= i < |after.closes| && after.closes[i].left > 0
  }

  /** Bytes are cut off exactly when the socket does not take all that is pending and either the
      application's channel is found gone or the peer has closed its side. */
  lemma ClosesEarlyExactly(l: Link, turn: Turn, close: Phase -> Phase)
    requires !Refuses(l)
    ensures ClosedEarly(l.conn, Serve(l, turn, close).link.conn)
            <==> LeavesPending(l.conn, turn) && (FindsGone(l, turn) || l.sock.phase == CloseWait)
  {
    TurnExactly(l, turn, close);
    TurnClosesExactly(l, turn, close);
    var f, p, after := Flushed(l, turn), Pulled(l, turn, close), Serve(l, turn, close).link.conn;
    var tail := TurnCloses(f, p, close);
    assert after.closes == l.conn.closes + tail;
    if f.conn.pending != [] && (p.gone || l.sock.phase == CloseWait) {
      assert tail[0].left > 0;
      assert after.closes[|l.conn.closes|].left > 0;
    }
  }

  /** Until a connection is seen established its receiver is in the table; from then on neither the
      receiver nor the request is. */
  ghost predicate Tracked(c: Conn) {
    if c.established then c.req.None? && !c.receiver.Held? else c.receiver.Held?
  }

  // ---- removal -------------------------------------------------------------------------------

  /** Everything that arrived is with the application: in a channel it holds the receiver of. */
  predicate AllReached(l: Link) {
    if l.conn.receiver == Handed then l.sock.rx == [] else l.sock.received == []
  }

  /** What a removal loses. Of what arrived, nothing exactly when the application holds the receiver and
      the permits of the last turn suffice, or nothing had arrived; of what the application wrote,
      nothing exactly when the socket takes all that is pending. A connection refused before it was
      seen established gets neither. */
  lemma RemovalLosesExactly(l: Link, turn: Turn, close: Phase -> Phase)
    requires Tracked(l.conn) && Serve(l, turn, close).removed
    ensures var o := Serve(l, turn, close).link;
            && (AllReached(o) <==>
                  if !Refuses(l) && ReceiverIn(l) == Handed then Drains(l, turn) else l.sock.received == [])
            && (o.conn.pending == [] <==> if Refuses(l) then l.conn.pending == [] else !LeavesPending(l.conn, turn))
  {
    if !Refuses(l) { TurnExactly(l, turn, close); }
  }

  /** An established connection whose socket has closed is removed over a byte that a full channel kept
      unread. */
  lemma RemovalLosesUnread(b: Byte, close: Phase -> Phase)
    ensures var l := Link(Conn(None, Handed, [], true, false, [], [], []), Socket(Closed, [b], [b], []));
            var o := Serve(l, Turn(false, 0, []), close);
            && Streams(l) && Tracked(l.conn) && o.removed && o.link == l && !AllReached(o.link)
  {
    var l := Link(Conn(None, Handed, [], true, false, [], [], []), Socket(Closed, [b], [b], []));
    assert Flatten(l.conn.toApp) == [];
    assert Pulled(l, Turn(false, 0, []), close) == Pull(l, false, true);
  }

  // ---- answers -------------------------------------------------------------------------------

  /** The request leaves the entry exactly when it is answered, with success exactly when the socket is
      seen established; an entry that is removed has no request left. */
  lemma ServeAnswers(l: Link, turn: Turn, close: Phase -> Phase)
    requires Tracked(l.conn)
    ensures var o := Serve(l, turn, close);
            && (if o.reply.Some? then l.conn.req.Some? && o.link.conn.req.None? else o.link.conn.req == l.conn.req)
            && (o.removed ==> o.link.conn.req.None?)
            && (o.reply == Some(true) <==> l.conn.req.Some? && Establishes(l))
            && (o.reply == Some(false) <==> l.conn.req.Some? && Refuses(l))
            && (!o.removed ==> Tracked(o.link.conn))
  {
    if !Refuses(l) {
      assert Serve(l, turn, close).link.conn.req == Seen(l).conn.req
          && Serve(l, turn, close).link.conn.receiver == Seen(l).conn.receiver
          && Serve(l, turn, close).link.conn.established == Seen(l).conn.established
          && Pulled(l, turn, close).link.conn.established == Seen(l).conn.established by {
        var h := HalfClose(Flushed(l, turn), close);
        HalfCloseShape(Flushed(l, turn), close);
        ReceiveShape(h, turn.grants, 0);
        FinishShape(Pulled(l, turn, close), close);
      }
    }
  }

  /** A connection whose socket closes, or waits to, before it was ever seen established is removed, its
      request refused, and nothing moves. */
  lemma DeadBeforeEstablished(l: Link, turn: Turn, close: Phase -> Phase)
    requires !l.conn.established && (l.sock.phase == Closed || l.sock.phase == TimeWait)
    ensures var o := Serve(l, turn, close);
            && o.removed && !o.offered && o.link == Link(l.conn.(req := None), l.sock)
            && o.reply == if l.conn.req.Some? then Some(false) else None
  {
  }

  /** A connection that was accepted rather than opened is never offered on the accept channel: the first
      turn that sees it established drops its receiver, delivers nothing and closes the socket. */
  lemma AcceptedIsDropped(l: Link, turn: Turn, close: Phase -> Phase)
    requires Tracked(l.conn) && l.conn.req.None? && Establishes(l)
    ensures var o := Serve(l, turn, close);
            && !o.offered && o.reply.None? && o.link.conn.receiver == Dropped
            && o.link.conn.toApp == l.conn.toApp
            && Close(AppGone, |o.link.conn.pending|) in o.link.conn.closes
  {
    var f := Flush(Link(Seen(l).conn, l.sock), turn);
    var h := HalfClose(f, close);
    var p := Pulled(l, turn, close);
    assert p == Pull(h, true, false);
    var s := Shut(h, AppGone, close);
    assert s.conn.closes[|h.conn.closes|] == Close(AppGone, |h.conn.pending|);
    var o := Serve(l, turn, close).link.conn;
    assert s.conn.closes <= o.closes;
    assert o.closes[|h.conn.closes|] == Close(AppGone, |h.conn.pending|);
  }
}
