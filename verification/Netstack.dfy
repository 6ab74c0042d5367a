/** The connection tables of the userspace network stack around its socket set. */
module Netstack {
  import opened Bytes
  import opened NetstackConn

  type Id = nat
  type Handle = nat

  datatype AnySocket = TcpSocket(tcp: Socket) | UdpSocket(queue: seq<seq<Byte>>, arrived: seq<seq<Byte>>)

  datatype TcpEntry = TcpEntry(handle: Handle, conn: Conn)
  datatype UdpEntry = UdpEntry(handle: Handle, toApp: seq<seq<Byte>>)
  datatype Reply = Reply(req: nat, ok: bool)

  /** Requests are numbered in the order they come; `replies` are the answers given and `offered` the
      connections put on the accept channel, in order; `retired` are the TCP connections removed, as
      they were last. */
  datatype State = State(
    sockets: map<Handle, AnySocket>, tcp: map<Id, TcpEntry>, udp: map<Id, UdpEntry>, nextId: nat,
    nextPort: nat, asked: nat, replies: seq<Reply>, offered: seq<Id>, retired: map<Id, Link>)

  const INITIAL := State(map[], map[], map[], 1, 49152, 0, [], [], map[])

  // ---- ports ---------------------------------------------------------------------------------

  /** The port after `p`. */
  function NextPort(p: nat): nat {
    if p >= 65000 then 49152 else p + 1
  }

  function PortAfter(k: nat): nat {
    if k == 0 then 49152 else NextPort(PortAfter(k - 1))
  }

  /** The ports cycle through 49152..65000, so any 15849 allocations in a row are distinct. */
  lemma {:induction false} PortsCycle(k: nat)
    ensures PortAfter(k) == 49152 + k % 15849
  {
    if k > 0 { PortsCycle(k - 1); }
  }

  // ---- table operations ----------------------------------------------------------------------

  function AddTcp(s: State, handle: Handle, req: Option<nat>, phase: Phase): State {
    var l := Opened(req, phase);
    s.(sockets := s.sockets[handle := TcpSocket(l.sock)], tcp := s.tcp[s.nextId := TcpEntry(handle, l.conn)],
       nextId := s.nextId + 1)
  }

  function AddUdp(s: State, handle: Handle): State {
    s.(sockets := s.sockets[handle := UdpSocket([], [])], udp := s.udp[s.nextId := UdpEntry(handle, [])],
       nextId := s.nextId + 1)
  }

  function SetTcp(s: State, id: Id, l: Link): State
    requires id in s.tcp
  {
    var h := s.tcp[id].handle;
    s.(sockets := s.sockets[h := TcpSocket(l.sock)], tcp := s.tcp[id := TcpEntry(h, l.conn)])
  }

  function RemoveTcp(s: State, id: Id): State
    requires id in s.tcp
  {
    s.(sockets := s.sockets - {s.tcp[id].handle}, tcp := s.tcp - {id})
  }

  // ---- commands and data from the application --------------------------------------------------

  /** A failed connect is answered at once; otherwise the socket set picks a free handle. */
  function OpenTcp(s: State, handle: Handle, ok: bool): State {
    if !ok then s.(nextPort := NextPort(s.nextPort), asked := s.asked + 1, replies := s.replies + [Reply(s.asked, false)])
    else if handle in s.sockets then s
    else AddTcp(s, handle, Some(s.asked), SynSent).(nextPort := NextPort(s.nextPort), asked := s.asked + 1)
  }

  function OpenUdp(s: State, handle: Handle, ok: bool): State {
    if ok && handle in s.sockets then s
    else (if ok then AddUdp(s, handle) else s).(
           nextPort := NextPort(s.nextPort), asked := s.asked + 1, replies := s.replies + [Reply(s.asked, ok)])
  }

  /** A SYN in accept mode creates a listening socket of its own. */
  function AcceptSyn(s: State, handle: Handle, ok: bool): State {
    if !ok || handle in s.sockets then s else AddTcp(s, handle, None, Listen)
  }

  function SetConn(s: State, id: Id, c: Conn): State
    requires id in s.tcp
  {
    s.(tcp := s.tcp[id := s.tcp[id].(conn := c)])
  }

  function TcpData(s: State, id: Id, data: seq<Byte>): State {
    if id !in s.tcp then s else SetConn(s, id, FromApp(s.tcp[id].conn, data))
  }

  function TcpClose(s: State, id: Id): State {
    if id !in s.tcp then s else SetConn(s, id, s.tcp[id].conn.(halfClosed := true))
  }

  function UdpClose(s: State, id: Id): State {
    if id !in s.udp then s else s.(sockets := s.sockets - {s.udp[id].handle}, udp := s.udp - {id})
  }

  // ---- the poll loop -------------------------------------------------------------------------

  /** What a poll of the protocol engine may bring a socket: another state, more received data. */
  datatype News = News(phase: Phase, data: seq<Byte>, datagrams: seq<seq<Byte>>)

  function Polled(k: AnySocket, n: News): AnySocket {
    match k
    case TcpSocket(t) => TcpSocket(t.(phase := n.phase, rx := t.rx + n.data, received := t.received + n.data))
    case UdpSocket(queue, arrived) => UdpSocket(queue + n.datagrams, arrived + n.datagrams)
  }

  function Poll(s: State, news: map<Handle, News>): State {
    s.(sockets := map h | h in s.sockets :: if h in news then Polled(s.sockets[h], news[h]) else s.sockets[h])
  }

  predicate TcpReady(s: State, id: Id) {
    id in s.tcp && s.tcp[id].handle in s.sockets && s.sockets[s.tcp[id].handle].TcpSocket?
  }

  function LinkOf(s: State, id: Id): Link
    requires TcpReady(s, id)
  {
    Link(s.tcp[id].conn, s.sockets[s.tcp[id].handle].tcp)
  }

  /** The tables and answers after a turn's outcome. */
  function Settled(s: State, id: Id, o: Outcome): State
    requires id in s.tcp
  {
    var t := s.(
      replies := if o.reply.Some? && s.tcp[id].conn.req.Some?
                 then s.replies + [Reply(s.tcp[id].conn.req.value, o.reply.value)] else s.replies,
      offered := if o.offered then s.offered + [id] else s.offered);
    if o.removed then RemoveTcp(t.(retired := t.retired[id := o.link]), id) else SetTcp(t, id, o.link)
  }

  /** One iteration of the TCP service loop; an id that is gone is skipped. */
  function ServeTcp(s: State, id: Id, turn: Turn, close: Phase -> Phase): State {
    if !TcpReady(s, id) then s else Settled(s, id, Serve(LinkOf(s, id), turn, close))
  }

  predicate Backpressured(s: State, id: Id, turn: Turn, close: Phase -> Phase) {
    TcpReady(s, id) && Serve(LinkOf(s, id), turn, close).busy
  }

  /** Datagrams move to the application while its channel grants permits. */
  function UdpMoves(queue: seq<seq<Byte>>, permits: seq<Permit>, k: nat): nat
    decreases MAX_RECV_CHUNKS - k, permits
  {
    if k >= MAX_RECV_CHUNKS || k >= |permits| || !permits[k].Granted? || k >= |queue| then k
    else UdpMoves(queue, permits, k + 1)
  }

  predicate UdpReady(s: State, id: Id) {
    id in s.udp && s.udp[id].handle in s.sockets && s.sockets[s.udp[id].handle].UdpSocket?
  }

  function UdpTaken(queue: seq<seq<Byte>>, permits: seq<Permit>): (n: nat)
    ensures n <= |queue|
  {
    var moves := UdpMoves(queue, permits, 0);
    if moves <= |queue| then moves else |queue|
  }

  /** Whether the loop stopped at a full channel. */
  predicate UdpBackpressured(queue: seq<seq<Byte>>, permits: seq<Permit>) {
    var k := UdpMoves(queue, permits, 0);
    k < MAX_RECV_CHUNKS && (k >= |permits| || permits[k].Full?)
  }

  function SetUdp(s: State, id: Id, toApp: seq<seq<Byte>>, queue: seq<seq<Byte>>): State
    requires UdpReady(s, id)
  {
    var h := s.udp[id].handle;
    s.(sockets := s.sockets[h := UdpSocket(queue, s.sockets[h].arrived)], udp := s.udp[id := UdpEntry(h, toApp)])
  }

  function ServeUdp(s: State, id: Id, permits: seq<Permit>): State {
    if !UdpReady(s, id) then s
    else
      var queue := s.sockets[s.udp[id].handle].queue;
      var n := UdpTaken(queue, permits);
      SetUdp(s, id, s.udp[id].toApp + queue[..n], queue[n..])
  }

  datatype Event =
    | OpenTcpCmd(handle: Handle, ok: bool) | OpenUdpCmd(handle: Handle, ok: bool) | Syn(handle: Handle, ok: bool)
    | Data(id: Id, data: seq<Byte>) | CloseTcp(id: Id) | CloseUdp(id: Id)
    | PollSockets(news: map<Handle, News>) | TcpTurn(id: Id, turn: Turn) | UdpTurn(id: Id, permits: seq<Permit>)

  function Next(s: State, e: Event, close: Phase -> Phase): State {
    match e
    case OpenTcpCmd(handle, ok) => OpenTcp(s, handle, ok)
    case OpenUdpCmd(handle, ok) => OpenUdp(s, handle, ok)
    case Syn(handle, ok) => AcceptSyn(s, handle, ok)
    case Data(id, data) => TcpData(s, id, data)
    case CloseTcp(id) => TcpClose(s, id)
    case CloseUdp(id) => UdpClose(s, id)
    case PollSockets(news) => Poll(s, news)
    case TcpTurn(id, turn) => ServeTcp(s, id, turn, close)
    case UdpTurn(id, permits) => ServeUdp(s, id, permits)
  }

  ghost predicate StepsTo(s: State, e: Event, t: State, close: Phase -> Phase) {
    t == Next(s, e, close)
  }

  ghost predicate IsRun(states: seq<State>, events: seq<Event>, close: Phase -> Phase) {
    && |states| == |events| + 1 && states[0] == INITIAL
    && forall i :: 0 <= i < |events| ==> StepsTo(states[i], events[i], states[i + 1], close)
  }

  // ---- ownership -----------------------------------------------------------------------------

  ghost predicate Owns(s: State, id: Id, h: Handle) {
    (id in s.tcp && s.tcp[id].handle == h) || (id in s.udp && s.udp[id].handle == h)
  }

  ghost predicate TcpPlaced(s: State) {
    && (forall id :: id in s.tcp ==> TcpReady(s, id) && id < s.nextId && id !in s.udp)
    && (forall i, j :: i in s.tcp && j in s.tcp && s.tcp[i].handle == s.tcp[j].handle ==> i == j)
  }

  ghost predicate UdpPlaced(s: State) {
    && (forall id :: id in s.udp ==> UdpReady(s, id) && id < s.nextId)
    && (forall i, j :: i in s.udp && j in s.udp && s.udp[i].handle == s.udp[j].handle ==> i == j)
  }

  /** Every entry has its socket, of its own kind; no two entries share one. */
  ghost predicate Placed(s: State) {
    TcpPlaced(s) && UdpPlaced(s)
  }

  /** No socket is left without an entry. */
  ghost predicate NoLeak(s: State) {
    forall h :: h in s.sockets ==> exists id :: Owns(s, id, h)
  }

  ghost predicate Owned(s: State) {
    Placed(s) && NoLeak(s)
  }

  /** `t` has the entries and sockets of `s`, whatever is in them. */
  ghost predicate SameShape(s: State, t: State) {
    && t.nextId == s.nextId && t.sockets.Keys == s.sockets.Keys && t.tcp.Keys == s.tcp.Keys && t.udp.Keys == s.udp.Keys
    && (forall id :: id in s.tcp ==> t.tcp[id].handle == s.tcp[id].handle)
    && (forall id :: id in s.udp ==> t.udp[id].handle == s.udp[id].handle)
    && (forall h :: h in s.sockets ==> (t.sockets[h].TcpSocket? <==> s.sockets[h].TcpSocket?))
  }

  lemma SameShapeOwned(s: State, t: State)
    requires Owned(s) && SameShape(s, t)
    ensures Owned(t)
  {
    assert NoLeak(t) by {
      forall h | h in t.sockets ensures exists id :: Owns(t, id, h) {
        var id :| Owns(s, id, h);
        assert Owns(t, id, h);
      }
    }
    assert TcpPlaced(t) by {
      forall i | i in t.tcp ensures TcpReady(t, i) { assert TcpReady(s, i); }
    }
    assert UdpPlaced(t) by {
      forall i | i in t.udp ensures UdpReady(t, i) { assert UdpReady(s, i); }
    }
  }

  lemma AddedNoLeak(s: State, t: State, handle: Handle)
    requires NoLeak(s) && t.sockets.Keys == s.sockets.Keys + {handle} && Owns(t, s.nextId, handle)
    requires forall id :: id in s.tcp ==> id in t.tcp && t.tcp[id].handle == s.tcp[id].handle
    requires forall id :: id in s.udp ==> id in t.udp && t.udp[id].handle == s.udp[id].handle
    ensures NoLeak(t)
  {
    forall h | h in t.sockets ensures exists id :: Owns(t, id, h) {
      if h != handle {
        var id :| Owns(s, id, h);
        assert Owns(t, id, h);
      }
    }
  }

  lemma AddTcpPlaced(s: State, handle: Handle, req: Option<nat>, phase: Phase)
    requires Placed(s) && handle !in s.sockets
    ensures Placed(AddTcp(s, handle, req, phase))
  {
    var t := AddTcp(s, handle, req, phase);
    forall i | i in t.tcp ensures TcpReady(t, i) { assert i != s.nextId ==> TcpReady(s, i); }
    forall i | i in t.udp ensures UdpReady(t, i) { assert UdpReady(s, i); }
  }

  lemma AddUdpPlaced(s: State, handle: Handle)
    requires Placed(s) && handle !in s.sockets
    ensures Placed(AddUdp(s, handle))
  {
    var t := AddUdp(s, handle);
    forall i | i in t.tcp ensures TcpReady(t, i) { assert TcpReady(s, i); }
    forall i | i in t.udp ensures UdpReady(t, i) { assert i != s.nextId ==> UdpReady(s, i); }
  }

  lemma AddTcpOwned(s: State, handle: Handle, req: Option<nat>, phase: Phase)
    requires Owned(s) && handle !in s.sockets
    ensures Owned(AddTcp(s, handle, req, phase))
  {
    var t := AddTcp(s, handle, req, phase);
    assert NoLeak(t) by { AddedNoLeak(s, t, handle); }
    assert Placed(t) by { AddTcpPlaced(s, handle, req, phase); }
  }

  lemma AddUdpOwned(s: State, handle: Handle)
    requires Owned(s) && handle !in s.sockets
    ensures Owned(AddUdp(s, handle))
  {
    var t := AddUdp(s, handle);
    assert NoLeak(t) by { AddedNoLeak(s, t, handle); }
    assert Placed(t) by { AddUdpPlaced(s, handle); }
  }

  /** `t` lost the entry `id` and its socket, nothing else. */
  ghost predicate WithoutEntry(s: State, t: State, id: Id, h: Handle) {
    && Owns(s, id, h) && t.nextId == s.nextId && t.sockets == s.sockets - {h} && t.tcp == s.tcp - {id} && t.udp == s.udp - {id}
  }

  lemma DroppedPlaced(s: State, t: State, id: Id, h: Handle)
    requires Placed(s) && WithoutEntry(s, t, id, h)
    ensures Placed(t)
  {
    forall i | i in t.tcp ensures TcpReady(t, i) { assert TcpReady(s, i); }
    forall i | i in t.udp ensures UdpReady(t, i) { assert UdpReady(s, i); }
  }

  lemma DroppedNoLeak(s: State, t: State, id: Id, h: Handle)
    requires NoLeak(s) && WithoutEntry(s, t, id, h) && Placed(s)
    ensures NoLeak(t)
  {
    forall k | k in t.sockets ensures exists i :: Owns(t, i, k) {
      var i :| Owns(s, i, k);
      assert Owns(t, i, k);
    }
  }

  lemma RemoveTcpOwned(s: State, id: Id)
    requires Owned(s) && id in s.tcp
    ensures Owned(RemoveTcp(s, id))
  {
    var t := RemoveTcp(s, id);
    assert s.udp - {id} == s.udp;
    assert WithoutEntry(s, t, id, s.tcp[id].handle);
    assert Placed(t) by { DroppedPlaced(s, t, id, s.tcp[id].handle); }
    assert NoLeak(t) by { DroppedNoLeak(s, t, id, s.tcp[id].handle); }
  }

  lemma UdpCloseOwned(s: State, id: Id)
    requires Owned(s)
    ensures Owned(UdpClose(s, id))
  {
    if id in s.udp {
      var t := UdpClose(s, id);
      assert s.tcp - {id} == s.tcp;
      assert WithoutEntry(s, t, id, s.udp[id].handle);
      assert Placed(t) by { DroppedPlaced(s, t, id, s.udp[id].handle); }
      assert NoLeak(t) by { DroppedNoLeak(s, t, id, s.udp[id].handle); }
    }
  }

  lemma SetTcpShape(s: State, id: Id, l: Link)
    requires TcpReady(s, id)
    ensures SameShape(s, SetTcp(s, id, l))
  {
  }

  lemma ServeUdpShape(s: State, id: Id, permits: seq<Permit>)
    ensures SameShape(s, ServeUdp(s, id, permits))
  {
  }

  // ---- bytes and closes ----------------------------------------------------------------------

  ghost predicate GoodLink(l: Link) {
    Streams(l) && Orderly(l.conn.closes) && Tracked(l.conn)
  }

  ghost predicate GoodTcp(s: State) {
    forall id :: id in s.tcp ==> TcpReady(s, id) && GoodLink(LinkOf(s, id))
  }

  /** What arrived is what the application was given followed by what is queued. */
  ghost predicate GoodUdp(s: State) {
    forall id :: id in s.udp ==>
      UdpReady(s, id) && s.sockets[s.udp[id].handle].arrived == s.udp[id].toApp + s.sockets[s.udp[id].handle].queue
  }

  /** Removed connections left in order, and are gone for good. */
  ghost predicate GoodRetired(s: State) {
    forall id :: id in s.retired ==>
      id !in s.tcp && id < s.nextId && Streams(s.retired[id]) && Orderly(s.retired[id].conn.closes)
  }

  ghost predicate Good(s: State) {
    GoodTcp(s) && GoodUdp(s)
  }

  lemma ServeKeepsLink(l: Link, turn: Turn, close: Phase -> Phase)
    requires GoodLink(l)
    ensures var o := Serve(l, turn, close); !o.removed ==> GoodLink(o.link)
  {
    ServeKeepsStreams(l, turn, close);
    ServeKeepsOrderly(l, turn, close);
    ServeAnswers(l, turn, close);
  }

  /** Entries of `t` that `s` had too, with the same socket, are as good as they were. */
  lemma SameTcpGood(s: State, t: State)
    requires GoodTcp(s)
    requires forall i :: i in t.tcp ==>
      i in s.tcp && t.tcp[i] == s.tcp[i] && t.tcp[i].handle in t.sockets && TcpReady(s, i)
      && t.sockets[t.tcp[i].handle] == s.sockets[s.tcp[i].handle]
    ensures GoodTcp(t)
  {
    forall i | i in t.tcp ensures TcpReady(t, i) && GoodLink(LinkOf(t, i)) {
      assert TcpReady(s, i) && GoodLink(LinkOf(s, i));
      assert LinkOf(t, i) == LinkOf(s, i);
    }
  }

  lemma SameUdpGood(s: State, t: State)
    requires GoodUdp(s)
    requires forall i :: i in t.udp ==>
      i in s.udp && t.udp[i] == s.udp[i] && t.udp[i].handle in t.sockets && UdpReady(s, i)
      && t.sockets[t.udp[i].handle] == s.sockets[s.udp[i].handle]
    ensures GoodUdp(t)
  {
    forall i | i in t.udp ensures UdpReady(t, i) { assert UdpReady(s, i); }
  }

  lemma SetTcpGood(s: State, id: Id, l: Link)
    requires Placed(s) && Good(s) && id in s.tcp && GoodLink(l)
    ensures Good(SetTcp(s, id, l))
  {
    var t := SetTcp(s, id, l);
    forall i | i in t.tcp ensures TcpReady(t, i) && GoodLink(LinkOf(t, i)) {
      assert TcpReady(s, i);
      assert i != id ==> LinkOf(t, i) == LinkOf(s, i);
    }
    assert GoodUdp(t) by { SameUdpGood(s, t); }
  }

  lemma RemoveTcpGood(s: State, id: Id)
    requires Placed(s) && Good(s) && id in s.tcp
    ensures Good(RemoveTcp(s, id))
  {
    var t := RemoveTcp(s, id);
    assert GoodTcp(t) by { SameTcpGood(s, t); }
    assert GoodUdp(t) by { SameUdpGood(s, t); }
  }

  lemma AddTcpGood(s: State, handle: Handle, req: Option<nat>, phase: Phase)
    requires Placed(s) && Good(s) && handle !in s.sockets
    ensures Good(AddTcp(s, handle, req, phase))
  {
    var t := AddTcp(s, handle, req, phase);
    forall i | i in t.tcp ensures TcpReady(t, i) && GoodLink(LinkOf(t, i)) {
      if i == s.nextId {
        assert LinkOf(t, i) == Opened(req, phase);
      } else {
        assert TcpReady(s, i);
        assert LinkOf(t, i) == LinkOf(s, i);
      }
    }
    assert GoodUdp(t) by { SameUdpGood(s, t); }
  }

  lemma AddUdpGood(s: State, handle: Handle)
    requires Placed(s) && Good(s) && handle !in s.sockets
    ensures Good(AddUdp(s, handle))
  {
    var t := AddUdp(s, handle);
    assert GoodTcp(t) by { SameTcpGood(s, t); }
  }

  lemma UdpCloseGood(s: State, id: Id)
    requires Placed(s) && Good(s)
    ensures Good(UdpClose(s, id))
  {
    var t := UdpClose(s, id);
    assert GoodTcp(t) by { SameTcpGood(s, t); }
    assert GoodUdp(t) by { SameUdpGood(s, t); }
  }

  lemma PolledStreams(c: Conn, k: Socket, n: News)
    requires Streams(Link(c, k))
    ensures Streams(Link(c, Polled(TcpSocket(k), n).tcp))
  {
    ConcatAssociative(Flatten(c.toApp), k.rx, n.data);
  }

  lemma PollGood(s: State, news: map<Handle, News>)
    requires Placed(s) && Good(s)
    ensures Good(Poll(s, news))
  {
    var t := Poll(s, news);
    forall i | i in t.tcp ensures TcpReady(t, i) && GoodLink(LinkOf(t, i)) {
      assert TcpReady(s, i);
      var h := s.tcp[i].handle;
      if h in news { PolledStreams(s.tcp[i].conn, s.sockets[h].tcp, news[h]); }
    }
    forall i | i in t.udp
      ensures UdpReady(t, i) && t.sockets[t.udp[i].handle].arrived == t.udp[i].toApp + t.sockets[t.udp[i].handle].queue
    {
      assert UdpReady(s, i);
      var h := s.udp[i].handle;
      if h in news {
        var a, b, c := s.udp[i].toApp, s.sockets[h].queue, news[h].datagrams;
        assert (a + b) + c == a + (b + c);
      }
    }
  }

  lemma SetUdpGood(s: State, id: Id, toApp: seq<seq<Byte>>, queue: seq<seq<Byte>>)
    requires UdpPlaced(s) && GoodUdp(s) && id in s.udp
    requires s.sockets[s.udp[id].handle].arrived == toApp + queue
    ensures GoodUdp(SetUdp(s, id, toApp, queue))
  {
    var t := SetUdp(s, id, toApp, queue);
    forall i | i in t.udp
      ensures UdpReady(t, i) && t.sockets[t.udp[i].handle].arrived == t.udp[i].toApp + t.sockets[t.udp[i].handle].queue
    {
      assert UdpReady(s, i);
    }
  }

  lemma ServeUdpGood(s: State, id: Id, permits: seq<Permit>)
    requires Placed(s) && Good(s)
    ensures Good(ServeUdp(s, id, permits))
  {
    var t := ServeUdp(s, id, permits);
    assert GoodTcp(t) by { SameTcpGood(s, t); }
    assert GoodUdp(t) by {
      if UdpReady(s, id) {
        var e, k := s.udp[id], s.sockets[s.udp[id].handle];
        var n := UdpTaken(k.queue, permits);
        assert e.toApp + k.queue == (e.toApp + k.queue[..n]) + k.queue[n..];
        SetUdpGood(s, id, e.toApp + k.queue[..n], k.queue[n..]);
      }
    }
  }

  // ---- answers -------------------------------------------------------------------------------

  ghost predicate Answered(replies: seq<Reply>, r: nat) {
    exists i :: 0 <= i < |replies| && replies[i].req == r
  }

  ghost predicate Waits(s: State, id: Id, r: nat) {
    id in s.tcp && s.tcp[id].conn.req == Some(r)
  }

  /** Every request made is answered once, or waits in one live entry: never both, never neither. */
  ghost predicate Accounted(s: State) {
    && (forall i, j :: 0 <= i < j < |s.replies| ==> s.replies[i].req != s.replies[j].req)
    && (forall i :: 0 <= i < |s.replies| ==> s.replies[i].req < s.asked)
    && (forall id, r: nat :: Waits(s, id, r) ==> r < s.asked && !Answered(s.replies, r))
    && (forall i, j, r: nat :: Waits(s, i, r) && Waits(s, j, r) ==> i == j)
    && (forall r :: 0 <= r < s.asked ==> Answered(s.replies, r) || exists id :: Waits(s, id, r))
  }

  lemma AnsweredSnoc(replies: seq<Reply>, reply: Reply, r: nat)
    ensures Answered(replies + [reply], r) <==> Answered(replies, r) || r == reply.req
  {
    var all := replies + [reply];
    assert all[|replies|] == reply;
    if Answered(replies, r) {
      var i :| 0 <= i < |replies| && replies[i].req == r;
      assert all[i].req == r;
    }
  }

  /** `t` differs from `s` in a new request, answered or waiting in a new entry. */
  lemma AskedAccounted(s: State, t: State, id: Id, reply: Option<Reply>)
    requires Accounted(s) && t.asked == s.asked + 1 && id !in s.tcp
    requires forall i, r: nat :: Waits(t, i, r) <==> Waits(s, i, r) || (reply.None? && i == id && r == s.asked)
    requires if reply.Some? then reply.value.req == s.asked && t.replies == s.replies + [reply.value] else t.replies == s.replies
    ensures Accounted(t)
  {
    if reply.Some? {
      forall r: nat ensures Answered(t.replies, r) <==> Answered(s.replies, r) || r == s.asked {
        AnsweredSnoc(s.replies, reply.value, r);
      }
    }
    forall r | 0 <= r < t.asked ensures Answered(t.replies, r) || exists i :: Waits(t, i, r) {
      if r == s.asked {
        if reply.None? { assert Waits(t, id, r); }
      } else if !Answered(s.replies, r) {
        var i :| Waits(s, i, r);
        assert Waits(t, i, r);
      }
    }
  }

  /** `t` differs from `s` in that the request waiting at `id` was answered. */
  lemma SettledAccounted(s: State, t: State, id: Id, reply: Reply)
    requires Accounted(s) && t.asked == s.asked && Waits(s, id, reply.req)
    requires t.replies == s.replies + [reply]
    requires forall i, r: nat :: Waits(t, i, r) <==> Waits(s, i, r) && i != id
    ensures Accounted(t)
  {
    forall r: nat ensures Answered(t.replies, r) <==> Answered(s.replies, r) || r == reply.req {
      AnsweredSnoc(s.replies, reply, r);
    }
    forall i | 0 <= i < |s.replies| ensures s.replies[i].req != reply.req {
      if s.replies[i].req == reply.req { assert Answered(s.replies, reply.req); }
    }
    forall r | 0 <= r < t.asked ensures Answered(t.replies, r) || exists i :: Waits(t, i, r) {
      if !Answered(s.replies, r) && r != reply.req {
        var i :| Waits(s, i, r);
        assert Waits(t, i, r);
      }
    }
  }

  lemma SameWaitsAccounted(s: State, t: State)
    requires Accounted(s) && t.asked == s.asked && t.replies == s.replies
    requires forall i, r: nat :: Waits(t, i, r) <==> Waits(s, i, r)
    ensures Accounted(t)
  {
    forall r | 0 <= r < t.asked ensures Answered(t.replies, r) || exists i :: Waits(t, i, r) {
      if !Answered(s.replies, r) {
        var i :| Waits(s, i, r);
        assert Waits(t, i, r);
      }
    }
  }

  // ---- every step, every run -----------------------------------------------------------------

  ghost predicate Inv(s: State) {
    Owned(s) && Good(s) && Accounted(s) && s.offered == [] && s.nextPort == PortAfter(s.asked) && GoodRetired(s)
  }

  lemma RetiredStay(s: State, t: State)
    requires GoodRetired(s) && t.retired == s.retired && s.nextId <= t.nextId
    requires forall id :: id in t.tcp ==> id in s.tcp || id >= s.nextId
    ensures GoodRetired(t)
  {
  }

  lemma LogsKeep(s: State, t: State)
    requires Owned(s) && Good(s) && t.sockets == s.sockets && t.tcp == s.tcp && t.udp == s.udp && t.nextId == s.nextId
    ensures Owned(t) && Good(t)
  {
    assert Owned(t) by { SameShapeOwned(s, t); }
    assert GoodTcp(t) by { SameTcpGood(s, t); }
    assert GoodUdp(t) by { SameUdpGood(s, t); }
  }

  lemma OpenedAccounted(s: State, handle: Handle)
    requires Accounted(s) && s.nextId !in s.tcp && handle !in s.sockets
    ensures Accounted(OpenTcp(s, handle, true))
  {
    AskedAccounted(s, OpenTcp(s, handle, true), s.nextId, None);
  }

  /** A request answered at once. */
  lemma RepliedAccounted(s: State, t: State, ok: bool)
    requires Accounted(s) && s.nextId !in s.tcp && t.asked == s.asked + 1 && t.tcp == s.tcp
    requires t.replies == s.replies + [Reply(s.asked, ok)]
    ensures Accounted(t)
  {
    AskedAccounted(s, t, s.nextId, Some(Reply(s.asked, ok)));
  }

  lemma OpenedTcpShape(s: State, handle: Handle)
    requires Owned(s) && Good(s) && handle !in s.sockets
    ensures Owned(OpenTcp(s, handle, true)) && Good(OpenTcp(s, handle, true))
  {
    var a := AddTcp(s, handle, Some(s.asked), SynSent);
    assert Owned(a) by { AddTcpOwned(s, handle, Some(s.asked), SynSent); }
    assert Good(a) by { AddTcpGood(s, handle, Some(s.asked), SynSent); }
    LogsKeep(a, OpenTcp(s, handle, true));
  }

  lemma OpenedUdpShape(s: State, handle: Handle)
    requires Owned(s) && Good(s) && handle !in s.sockets
    ensures Owned(OpenUdp(s, handle, true)) && Good(OpenUdp(s, handle, true))
  {
    var a := AddUdp(s, handle);
    assert Owned(a) by { AddUdpOwned(s, handle); }
    assert Good(a) by { AddUdpGood(s, handle); }
    LogsKeep(a, OpenUdp(s, handle, true));
  }

  /** A failed open changes no table. */
  lemma FailedKeeps(s: State, t: State)
    requires Inv(s)
    requires t == s.(nextPort := NextPort(s.nextPort), asked := s.asked + 1, replies := s.replies + [Reply(s.asked, false)])
    ensures Inv(t)
  {
    assert Owned(t) && Good(t) by { LogsKeep(s, t); }
    assert Accounted(t) by { RepliedAccounted(s, t, false); }
    assert GoodRetired(t) by { RetiredStay(s, t); }
  }

  lemma OpenedTcpKeeps(s: State, handle: Handle)
    requires Inv(s) && handle !in s.sockets
    ensures Inv(OpenTcp(s, handle, true))
  {
    var t := OpenTcp(s, handle, true);
    assert Owned(t) && Good(t) by { OpenedTcpShape(s, handle); }
    assert Accounted(t) by { OpenedAccounted(s, handle); }
    assert GoodRetired(t) by { RetiredStay(s, t); }
  }

  lemma OpenedUdpKeeps(s: State, handle: Handle)
    requires Inv(s) && handle !in s.sockets
    ensures Inv(OpenUdp(s, handle, true))
  {
    var t := OpenUdp(s, handle, true);
    assert Owned(t) && Good(t) by { OpenedUdpShape(s, handle); }
    assert Accounted(t) by { RepliedAccounted(s, t, true); }
    assert GoodRetired(t) by { RetiredStay(s, t); }
  }

  lemma OpenTcpKeeps(s: State, handle: Handle, ok: bool)
    requires Inv(s)
    ensures Inv(OpenTcp(s, handle, ok))
  {
    if !ok {
      FailedKeeps(s, OpenTcp(s, handle, ok));
    } else if handle !in s.sockets {
      OpenedTcpKeeps(s, handle);
    }
  }

  lemma OpenUdpKeeps(s: State, handle: Handle, ok: bool)
    requires Inv(s)
    ensures Inv(OpenUdp(s, handle, ok))
  {
    if !ok {
      FailedKeeps(s, OpenUdp(s, handle, ok));
    } else if handle !in s.sockets {
      OpenedUdpKeeps(s, handle);
    }
  }

  lemma AcceptedAccounted(s: State, handle: Handle)
    requires Accounted(s) && s.nextId !in s.tcp && handle !in s.sockets
    ensures Accounted(AcceptSyn(s, handle, true))
  {
    SameWaitsAccounted(s, AcceptSyn(s, handle, true));
  }

  lemma AcceptSynKeeps(s: State, handle: Handle, ok: bool)
    requires Inv(s)
    ensures Inv(AcceptSyn(s, handle, ok))
  {
    var t := AcceptSyn(s, handle, ok);
    if ok && handle !in s.sockets {
      assert Owned(t) by { AddTcpOwned(s, handle, None, Listen); }
      assert Good(t) by { AddTcpGood(s, handle, None, Listen); }
      assert Accounted(t) by { AcceptedAccounted(s, handle); }
      assert GoodRetired(t) by { RetiredStay(s, t); }
    }
  }

  lemma SetConnIsSetTcp(s: State, id: Id, c: Conn)
    requires TcpReady(s, id)
    ensures SetTcp(s, id, Link(c, LinkOf(s, id).sock)) == SetConn(s, id, c)
  {
    var h := s.tcp[id].handle;
    assert s.sockets[h := TcpSocket(LinkOf(s, id).sock)] == s.sockets;
  }

  lemma SameRequestAccounted(s: State, id: Id, c: Conn)
    requires Accounted(s) && id in s.tcp && c.req == s.tcp[id].conn.req
    ensures Accounted(SetConn(s, id, c))
  {
    SameWaitsAccounted(s, SetConn(s, id, c));
  }

  /** Replacing an entry by one with the same request. */
  lemma SetConnKeeps(s: State, id: Id, c: Conn)
    requires Inv(s) && TcpReady(s, id) && c.req == s.tcp[id].conn.req && GoodLink(Link(c, LinkOf(s, id).sock))
    ensures Inv(SetConn(s, id, c))
  {
    var l, t := Link(c, LinkOf(s, id).sock), SetConn(s, id, c);
    assert SetTcp(s, id, l) == t by { SetConnIsSetTcp(s, id, c); }
    assert Owned(t) by { SetTcpShape(s, id, l); SameShapeOwned(s, t); }
    assert Good(t) by { SetTcpGood(s, id, l); }
    assert Accounted(t) by { SameRequestAccounted(s, id, c); }
  }

  lemma TcpDataKeeps(s: State, id: Id, data: seq<Byte>)
    requires Inv(s)
    ensures Inv(TcpData(s, id, data))
  {
    if id in s.tcp {
      assert TcpReady(s, id) && GoodLink(LinkOf(s, id));
      ConcatAssociative(LinkOf(s, id).sock.sent, s.tcp[id].conn.pending, data);
      SetConnKeeps(s, id, FromApp(s.tcp[id].conn, data));
    }
  }

  lemma TcpCloseKeeps(s: State, id: Id)
    requires Inv(s)
    ensures Inv(TcpClose(s, id))
  {
    if id in s.tcp {
      assert TcpReady(s, id) && GoodLink(LinkOf(s, id));
      SetConnKeeps(s, id, s.tcp[id].conn.(halfClosed := true));
    }
  }

  lemma UdpCloseKeeps(s: State, id: Id)
    requires Inv(s)
    ensures Inv(UdpClose(s, id))
  {
    var t := UdpClose(s, id);
    assert Owned(t) by { UdpCloseOwned(s, id); }
    assert Good(t) by { UdpCloseGood(s, id); }
    assert Accounted(t) by { SameWaitsAccounted(s, t); }
  }

  lemma PollKeeps(s: State, news: map<Handle, News>)
    requires Inv(s)
    ensures Inv(Poll(s, news))
  {
    var t := Poll(s, news);
    assert Owned(t) by { SameShapeOwned(s, t); }
    assert Good(t) by { PollGood(s, news); }
    assert Accounted(t) by { SameWaitsAccounted(s, t); }
  }

  lemma ServeUdpKeeps(s: State, id: Id, permits: seq<Permit>)
    requires Inv(s)
    ensures Inv(ServeUdp(s, id, permits))
  {
    var t := ServeUdp(s, id, permits);
    assert Owned(t) by { ServeUdpShape(s, id, permits); SameShapeOwned(s, t); }
    assert Good(t) by { ServeUdpGood(s, id, permits); }
    assert Accounted(t) by { SameWaitsAccounted(s, t); }
  }

  /** The answers of a service turn. */
  lemma ServeTcpAccounted(s: State, id: Id, turn: Turn, close: Phase -> Phase)
    requires Accounted(s) && TcpReady(s, id) && Tracked(s.tcp[id].conn)
    ensures Accounted(ServeTcp(s, id, turn, close))
  {
    var l, t := LinkOf(s, id), ServeTcp(s, id, turn, close);
    var o := Serve(l, turn, close);
    ServeAnswers(l, turn, close);
    assert forall i :: i in s.tcp && i != id ==> i in t.tcp && t.tcp[i] == s.tcp[i];
    assert id in t.tcp ==> t.tcp[id].conn == o.link.conn;
    if o.reply.Some? {
      SettledAccounted(s, t, id, Reply(l.conn.req.value, o.reply.value));
    } else {
      SameWaitsAccounted(s, t);
    }
  }

  lemma NeverOffered(l: Link, turn: Turn, close: Phase -> Phase)
    ensures !Serve(l, turn, close).offered
  {
  }

  lemma ServeTcpRetires(s: State, id: Id, turn: Turn, close: Phase -> Phase)
    requires GoodRetired(s) && TcpReady(s, id) && id < s.nextId && GoodLink(LinkOf(s, id))
    ensures GoodRetired(ServeTcp(s, id, turn, close))
  {
    ServeKeepsStreams(LinkOf(s, id), turn, close);
    ServeKeepsOrderly(LinkOf(s, id), turn, close);
  }

  lemma ServeTcpKeeps(s: State, id: Id, turn: Turn, close: Phase -> Phase)
    requires Inv(s)
    ensures Inv(ServeTcp(s, id, turn, close))
  {
    if TcpReady(s, id) {
      var l, t := LinkOf(s, id), ServeTcp(s, id, turn, close);
      var o := Serve(l, turn, close);
      assert !o.offered by { NeverOffered(l, turn, close); }
      var a := s.(replies := t.replies, retired := t.retired);
      assert GoodRetired(t) by { ServeTcpRetires(s, id, turn, close); }
      assert Owned(a) && Good(a) by { LogsKeep(s, a); }
      assert Owned(t) && Good(t) by {
        if o.removed {
          RemoveTcpOwned(a, id);
          RemoveTcpGood(a, id);
        } else {
          assert GoodLink(o.link) by { ServeKeepsLink(l, turn, close); }
          SetTcpShape(a, id, o.link);
          SameShapeOwned(a, t);
          SetTcpGood(a, id, o.link);
        }
      }
      assert Accounted(t) by { ServeTcpAccounted(s, id, turn, close); }
    }
  }

  lemma NextKeeps(s: State, e: Event, close: Phase -> Phase)
    requires Inv(s)
    ensures Inv(Next(s, e, close))
  {
    match e
    case OpenTcpCmd(handle, ok) => OpenTcpKeeps(s, handle, ok);
    case OpenUdpCmd(handle, ok) => OpenUdpKeeps(s, handle, ok);
    case Syn(handle, ok) => AcceptSynKeeps(s, handle, ok);
    case Data(id, data) => TcpDataKeeps(s, id, data);
    case CloseTcp(id) => TcpCloseKeeps(s, id);
    case CloseUdp(id) => UdpCloseKeeps(s, id);
    case PollSockets(news) => PollKeeps(s, news);
    case TcpTurn(id, turn) => ServeTcpKeeps(s, id, turn, close);
    case UdpTurn(id, permits) => ServeUdpKeeps(s, id, permits);
  }

  lemma {:induction false} InvAlways(states: seq<State>, events: seq<Event>, close: Phase -> Phase, n: nat)
    requires IsRun(states, events, close) && n < |states|
    ensures Inv(states[n])
  {
    if n > 0 {
      assert Inv(states[n - 1]) by { InvAlways(states, events, close, n - 1); }
      assert StepsTo(states[n - 1], events[n - 1], states[n], close);
      assert Inv(Next(states[n - 1], events[n - 1], close)) by { NextKeeps(states[n - 1], events[n - 1], close); }
    }
  }

  /** In every reachable state the tables own the socket set one to one. */
  lemma TablesOwnSockets(states: seq<State>, events: seq<Event>, close: Phase -> Phase, n: nat)
    requires IsRun(states, events, close) && n < |states|
    ensures Owned(states[n])
  {
    InvAlways(states, events, close, n);
  }

  /** In every reachable state every request was answered exactly once or waits in exactly one entry. */
  lemma RequestsAreAccountedFor(states: seq<State>, events: seq<Event>, close: Phase -> Phase, n: nat)
    requires IsRun(states, events, close) && n < |states|
    ensures Accounted(states[n])
  {
    InvAlways(states, events, close, n);
  }

  /** In every reachable state and for every connection, live or removed: bytes in order and accounted for
      both ways, and a requested close only after the last pending byte. */
  lemma BytesArePreserved(states: seq<State>, events: seq<Event>, close: Phase -> Phase, n: nat)
    requires IsRun(states, events, close) && n < |states|
    ensures Good(states[n]) && GoodRetired(states[n])
  {
    InvAlways(states, events, close, n);
  }

  /** A connection once opened is live or among the removed, and what was removed stays as it was. */
  ghost predicate Lasts(s: State, t: State) {
    && (forall id :: id in s.tcp ==> id in t.tcp || id in t.retired)
    && (forall id :: id in s.retired ==> id in t.retired && t.retired[id] == s.retired[id])
  }

  lemma ServeLasts(s: State, id: Id, turn: Turn, close: Phase -> Phase)
    requires GoodRetired(s)
    ensures Lasts(s, ServeTcp(s, id, turn, close))
  {
  }

  lemma NextLasts(s: State, e: Event, close: Phase -> Phase)
    requires GoodRetired(s)
    ensures Lasts(s, Next(s, e, close))
  {
    if e.TcpTurn? {
      ServeLasts(s, e.id, e.turn, close);
    } else {
      assert Next(s, e, close).retired == s.retired;
      assert forall id :: id in s.tcp ==> id in Next(s, e, close).tcp;
    }
  }

  lemma LastsOn(s: State, t: State, u: State)
    requires Lasts(s, t) && Lasts(t, u)
    ensures Lasts(s, u)
  {
  }

  lemma {:induction false} ConnectionsLast(states: seq<State>, events: seq<Event>, close: Phase -> Phase, i: nat, j: nat)
    requires IsRun(states, events, close) && i <= j < |states|
    ensures Lasts(states[i], states[j])
    decreases j
  {
    if i < j {
      assert Lasts(states[i], states[j - 1]) by { ConnectionsLast(states, events, close, i, j - 1); }
      assert Lasts(states[j - 1], states[j]) by {
        assert StepsTo(states[j - 1], events[j - 1], states[j], close);
        assert GoodRetired(states[j - 1]) by { InvAlways(states, events, close, j - 1); }
        NextLasts(states[j - 1], events[j - 1], close);
      }
      LastsOn(states[i], states[j - 1], states[j]);
    }
  }

  /** Every removal of every run: what it loses, exactly. */
  lemma RemovalsLoseExactly(states: seq<State>, events: seq<Event>, close: Phase -> Phase, n: nat)
    requires IsRun(states, events, close) && n < |events| && events[n].TcpTurn?
    requires events[n].id in states[n].tcp && events[n].id !in states[n + 1].tcp
    ensures var s, id, turn := states[n], events[n].id, events[n].turn;
            && TcpReady(s, id) && id in states[n + 1].retired
            && var l, last := LinkOf(s, id), states[n + 1].retired[id];
               && (AllReached(last) <==>
                     if !Refuses(l) && ReceiverIn(l) == Handed then Drains(l, turn) else l.sock.received == [])
               && (last.conn.pending == [] <==> if Refuses(l) then l.conn.pending == [] else !LeavesPending(l.conn, turn))
  {
    var s, id := states[n], events[n].id;
    assert TcpReady(s, id) && GoodLink(LinkOf(s, id)) by { InvAlways(states, events, close, n); }
    assert StepsTo(s, events[n], states[n + 1], close);
    RemovalLosesExactly(LinkOf(s, id), events[n].turn, close);
  }

  /** No accepted connection is ever put on the accept channel. */
  lemma NothingIsEverOffered(states: seq<State>, events: seq<Event>, close: Phase -> Phase, n: nat)
    requires IsRun(states, events, close) && n < |states|
    ensures states[n].offered == []
  {
    InvAlways(states, events, close, n);
  }

  /** The k-th request to open anything, answered or not, gets the k-th port of the cycle. */
  lemma PortsFollowRequests(states: seq<State>, events: seq<Event>, close: Phase -> Phase, n: nat)
    requires IsRun(states, events, close) && n < |states|
    ensures states[n].nextPort == 49152 + states[n].asked % 15849
  {
    InvAlways(states, events, close, n);
    PortsCycle(states[n].asked);
  }

  /** An id once given out and gone never comes back, and no id is given out twice. */
  ghost predicate NoReuse(s: State, t: State) {
    && s.nextId <= t.nextId
    && forall id :: id < s.nextId ==> (id in t.tcp ==> id in s.tcp) && (id in t.udp ==> id in s.udp)
  }

  lemma NextNoReuse(s: State, e: Event, close: Phase -> Phase)
    ensures NoReuse(s, Next(s, e, close))
  {
  }

  lemma {:induction false} IdsAreNeverReused(states: seq<State>, events: seq<Event>, close: Phase -> Phase, i: nat, j: nat)
    requires IsRun(states, events, close) && i <= j < |states|
    ensures NoReuse(states[i], states[j])
    decreases j
  {
    if i < j {
      IdsAreNeverReused(states, events, close, i, j - 1);
      assert StepsTo(states[j - 1], events[j - 1], states[j], close);
      assert NoReuse(states[j - 1], states[j]) by { NextNoReuse(states[j - 1], events[j - 1], close); }
    }
  }

  // ---- histories -----------------------------------------------------------------------------

  /** What the events of a run mean for one connection: the bytes the application wrote to it, the bytes
      that arrived for it, how many its socket took, whether a close was asked for. */
  datatype History = History(app: seq<Byte>, net: seq<Byte>, sent: nat, asked: bool)

  const NOTHING := History([], [], 0, false)

  /** A turn: a socket that can send takes what it accepts of what is pending. */
  ghost function Turned(h: History, l: Link, turn: Turn): History {
    if Refuses(l) || !turn.canSend || |h.app| < h.sent then h
    else h.(sent := h.sent + Least(turn.accepts, |h.app| - h.sent))
  }

  /** One more event, in state s. Events for a connection that is not live mean nothing. */
  ghost function Recorded(h: History, s: State, e: Event, id: Id): History {
    if !TcpReady(s, id) then h
    else match e
      case Data(i, data) => if i == id then h.(app := h.app + data) else h
      case CloseTcp(i) => if i == id then h.(asked := true) else h
      case PollSockets(news) =>
        if s.tcp[id].handle in news then h.(net := h.net + news[s.tcp[id].handle].data) else h
      case TcpTurn(i, turn) =>
        if i == id then Turned(h, LinkOf(s, id), turn) else h
      case _ => h
  }

  ghost function HistoryOf(states: seq<State>, events: seq<Event>, n: nat, id: Id): History
    requires n <= |events| < |states|
  {
    if n == 0 then NOTHING else Recorded(HistoryOf(states, events, n - 1, id), states[n - 1], events[n - 1], id)
  }

  ghost predicate Matches(l: Link, h: History) {
    && l.conn.fromApp == h.app && l.sock.received == h.net && l.conn.halfClosed == h.asked
    && h.sent <= |h.app| && l.sock.sent == h.app[..h.sent] && l.conn.pending == h.app[h.sent..]
  }

  ghost predicate Tells(h: History, s: State, id: Id) {
    && (id in s.tcp ==> TcpReady(s, id) && Matches(LinkOf(s, id), h))
    && (id in s.retired ==> Matches(s.retired[id], h))
    && (id >= s.nextId ==> h == NOTHING)
  }

  /** An event that leaves the connection alone. */
  ghost predicate Untouched(s: State, t: State, id: Id) {
    && s.nextId <= t.nextId && t.retired == s.retired
    && (id in t.tcp ==> TcpReady(s, id) && TcpReady(t, id) && LinkOf(t, id) == LinkOf(s, id))
  }

  lemma UntouchedTells(h: History, s: State, t: State, id: Id)
    requires Tells(h, s, id) && Untouched(s, t, id)
    ensures Tells(h, t, id)
  {
  }

  lemma AddTcpTells(h: History, s: State, handle: Handle, req: Option<nat>, phase: Phase, id: Id)
    requires Placed(s) && GoodRetired(s) && Tells(h, s, id) && handle !in s.sockets
    ensures Tells(h, AddTcp(s, handle, req, phase), id)
  {
    var t := AddTcp(s, handle, req, phase);
    if id == s.nextId {
      assert LinkOf(t, id) == Opened(req, phase);
    } else if id in s.tcp {
      assert LinkOf(t, id) == LinkOf(s, id);
    }
  }

  lemma AddUdpUntouched(s: State, handle: Handle, id: Id)
    requires Placed(s) && handle !in s.sockets
    ensures Untouched(s, AddUdp(s, handle), id)
  {
  }

  lemma SetConnTells(h: History, s: State, at: Id, c: Conn, g: History, id: Id)
    requires Placed(s) && Tells(h, s, id) && at in s.tcp && GoodRetired(s)
    requires if at == id then Matches(Link(c, LinkOf(s, id).sock), g) else g == h
    ensures Tells(g, SetConn(s, at, c), id)
  {
    var t := SetConn(s, at, c);
    assert TcpReady(s, at);
    if id in t.tcp {
      assert TcpReady(s, id) && LinkOf(t, id) == if at == id then Link(c, LinkOf(s, id).sock) else LinkOf(s, id);
    }
  }

  lemma DataTells(h: History, s: State, at: Id, data: seq<Byte>, id: Id)
    requires Placed(s) && GoodRetired(s) && Tells(h, s, id)
    ensures Tells(Recorded(h, s, Data(at, data), id), TcpData(s, at, data), id)
  {
    if at in s.tcp {
      assert TcpReady(s, at);
      var g := Recorded(h, s, Data(at, data), id);
      if at == id {
        assert g.app[..h.sent] == h.app[..h.sent] && g.app[h.sent..] == h.app[h.sent..] + data;
      }
      SetConnTells(h, s, at, FromApp(s.tcp[at].conn, data), g, id);
    }
  }

  lemma CloseTells(h: History, s: State, at: Id, id: Id)
    requires Placed(s) && GoodRetired(s) && Tells(h, s, id)
    ensures Tells(Recorded(h, s, CloseTcp(at), id), TcpClose(s, at), id)
  {
    if at in s.tcp {
      assert TcpReady(s, at);
      SetConnTells(h, s, at, s.tcp[at].conn.(halfClosed := true), Recorded(h, s, CloseTcp(at), id), id);
    }
  }

  lemma PollTells(h: History, s: State, news: map<Handle, News>, id: Id)
    requires Placed(s) && GoodRetired(s) && Tells(h, s, id)
    ensures Tells(Recorded(h, s, PollSockets(news), id), Poll(s, news), id)
  {
    if id in s.tcp { assert TcpReady(s, id); }
  }

  lemma UdpUntouched(s: State, at: Id, permits: seq<Permit>, id: Id)
    requires Placed(s)
    ensures Untouched(s, UdpClose(s, at), id) && Untouched(s, ServeUdp(s, at, permits), id)
  {
    if id in s.tcp { assert TcpReady(s, id); }
    if at in s.udp { assert UdpReady(s, at); }
  }

  /** A turn of a matched link matches the history with the turn recorded. */
  lemma TurnMatches(l: Link, turn: Turn, close: Phase -> Phase, h: History)
    requires Matches(l, h)
    ensures Matches(Serve(l, turn, close).link, Turned(h, l, turn))
  {
    if !Refuses(l) {
      TurnMoves(l, turn, close);
      TurnExactly(l, turn, close);
      var m := Takes(l.conn, turn);
      assert h.app[..h.sent] + h.app[h.sent..][..m] == h.app[..h.sent + m];
      assert h.app[h.sent..][m..] == h.app[h.sent + m..];
    }
  }

  lemma SettledTells(h: History, g: History, s: State, at: Id, o: Outcome, id: Id)
    requires Placed(s) && GoodRetired(s) && Tells(h, s, id) && at in s.tcp
    requires if at == id then Matches(o.link, g) else g == h
    ensures Tells(g, Settled(s, at, o), id)
  {
    var t := Settled(s, at, o);
    assert TcpReady(s, at) && at < s.nextId && at !in s.retired;
    if at == id {
      assert o.removed ==> t.retired[id] == o.link;
      assert !o.removed ==> TcpReady(t, id) && LinkOf(t, id) == o.link;
    } else if id in s.tcp {
      assert TcpReady(s, id) && s.tcp[id].handle != s.tcp[at].handle;
      assert LinkOf(t, id) == LinkOf(s, id);
    }
  }

  lemma TurnTells(h: History, s: State, at: Id, turn: Turn, close: Phase -> Phase, id: Id)
    requires Placed(s) && GoodRetired(s) && Tells(h, s, id)
    ensures Tells(Recorded(h, s, TcpTurn(at, turn), id), ServeTcp(s, at, turn, close), id)
  {
    if at in s.tcp {
      assert TcpReady(s, at);
      var l := LinkOf(s, at);
      if at == id { TurnMatches(l, turn, close, h); }
      SettledTells(h, if at == id then Turned(h, l, turn) else h, s, at, Serve(l, turn, close), id);
    }
  }

  /** The counters and answers tell nothing of a connection. */
  lemma LogsTell(h: History, s: State, t: State, id: Id)
    requires Tells(h, s, id) && t.sockets == s.sockets && t.tcp == s.tcp && t.nextId == s.nextId && t.retired == s.retired
    ensures Tells(h, t, id)
  {
  }

  lemma OpenTcpTells(h: History, s: State, handle: Handle, ok: bool, id: Id)
    requires Placed(s) && GoodRetired(s) && Tells(h, s, id)
    ensures Tells(h, OpenTcp(s, handle, ok), id)
  {
    var t := OpenTcp(s, handle, ok);
    if !ok {
      LogsTell(h, s, t, id);
    } else if handle !in s.sockets {
      var a := AddTcp(s, handle, Some(s.asked), SynSent);
      assert Tells(h, a, id) by { AddTcpTells(h, s, handle, Some(s.asked), SynSent, id); }
      LogsTell(h, a, t, id);
    }
  }

  lemma OpenUdpTells(h: History, s: State, handle: Handle, ok: bool, id: Id)
    requires Placed(s) && GoodRetired(s) && Tells(h, s, id)
    ensures Tells(h, OpenUdp(s, handle, ok), id)
  {
    var t := OpenUdp(s, handle, ok);
    if !ok {
      LogsTell(h, s, t, id);
    } else if handle !in s.sockets {
      AddUdpUntouched(s, handle, id);
      LogsTell(h, AddUdp(s, handle), t, id);
    }
  }

  lemma SynTells(h: History, s: State, handle: Handle, ok: bool, id: Id)
    requires Placed(s) && GoodRetired(s) && Tells(h, s, id)
    ensures Tells(h, AcceptSyn(s, handle, ok), id)
  {
    if ok && handle !in s.sockets {
      AddTcpTells(h, s, handle, None, Listen, id);
    }
  }

  lemma NextTells(h: History, s: State, e: Event, close: Phase -> Phase, id: Id)
    requires Placed(s) && GoodRetired(s) && Tells(h, s, id)
    ensures Tells(Recorded(h, s, e, id), Next(s, e, close), id)
  {
    match e
    case Data(at, data) => DataTells(h, s, at, data, id);
    case CloseTcp(at) => CloseTells(h, s, at, id);
    case PollSockets(news) => PollTells(h, s, news, id);
    case TcpTurn(at, turn) => TurnTells(h, s, at, turn, close, id);
    case CloseUdp(at) => UdpUntouched(s, at, [], id);
    case UdpTurn(at, permits) => UdpUntouched(s, at, permits, id);
    case OpenTcpCmd(handle, ok) => OpenTcpTells(h, s, handle, ok, id);
    case OpenUdpCmd(handle, ok) => OpenUdpTells(h, s, handle, ok, id);
    case Syn(handle, ok) => SynTells(h, s, handle, ok, id);
  }

  /** Over every run and for every connection, live or removed: what the application wrote, what arrived,
      what the socket was handed and what is pending, and whether a close is asked for, are what the
      events of the run say. */
  lemma {:induction false} HistoriesTell(states: seq<State>, events: seq<Event>, close: Phase -> Phase, n: nat, id: Id)
    requires IsRun(states, events, close) && n <= |events|
    ensures Tells(HistoryOf(states, events, n, id), states[n], id)
  {
    if n > 0 {
      var h := HistoryOf(states, events, n - 1, id);
      assert Tells(h, states[n - 1], id) by { HistoriesTell(states, events, close, n - 1, id); }
      assert Placed(states[n - 1]) && GoodRetired(states[n - 1]) by { InvAlways(states, events, close, n - 1); }
      assert StepsTo(states[n - 1], events[n - 1], states[n], close);
      NextTells(h, states[n - 1], events[n - 1], close, id);
    }
  }

  /** What opens, in every run: a connection under the next id with a socket of its own, dialling for a
      request and listening for a SYN, with nothing written, received or closed yet; a UDP entry
      likewise; nothing else is touched. */
  lemma OpensFresh(s: State, handle: Handle)
    requires Placed(s) && handle !in s.sockets
    ensures var t := OpenTcp(s, handle, true);
            && s.nextId !in s.tcp && t.tcp.Keys == s.tcp.Keys + {s.nextId} && t.udp == s.udp && TcpReady(t, s.nextId)
            && LinkOf(t, s.nextId) == Opened(Some(s.asked), SynSent) && t.replies == s.replies
    ensures var t := AcceptSyn(s, handle, true);
            && t.tcp.Keys == s.tcp.Keys + {s.nextId} && t.udp == s.udp && TcpReady(t, s.nextId)
            && LinkOf(t, s.nextId) == Opened(None, Listen) && t.replies == s.replies && t.asked == s.asked
    ensures var t := OpenUdp(s, handle, true);
            && t.udp.Keys == s.udp.Keys + {s.nextId} && t.tcp == s.tcp && UdpReady(t, s.nextId)
            && t.sockets[t.udp[s.nextId].handle].queue == [] && t.replies == s.replies + [Reply(s.asked, true)]
    ensures OpenTcp(s, handle, false) == OpenUdp(s, handle, false)
         == s.(nextPort := NextPort(s.nextPort), asked := s.asked + 1, replies := s.replies + [Reply(s.asked, false)])
  {
  }

  /** What a poll brings reaches the entry that owns the socket, and only what it brings. */
  lemma PollBrings(s: State, news: map<Handle, News>, id: Id)
    requires Placed(s) && id in s.tcp
    ensures TcpReady(s, id) && TcpReady(Poll(s, news), id)
    ensures var h, a, b := s.tcp[id].handle, LinkOf(s, id), LinkOf(Poll(s, news), id);
            b == if h in news then a.(sock := Socket(news[h].phase, a.sock.rx + news[h].data, b.sock.received, a.sock.sent)) else a
  {
    assert TcpReady(s, id);
  }

  /** How many datagrams a turn moves: up to the first permit that is not granted, the end of the queue or
      the limit, and no fewer. */
  lemma {:induction false} UdpMovesExactly(queue: seq<seq<Byte>>, permits: seq<Permit>, k: nat)
    requires k <= MAX_RECV_CHUNKS && k <= |queue| && k <= |permits| && forall i :: 0 <= i < k ==> permits[i].Granted?
    ensures var m := UdpMoves(queue, permits, k);
            && m <= |queue| && m <= MAX_RECV_CHUNKS && m <= |permits|
            && (forall i :: 0 <= i < m ==> permits[i].Granted?)
            && (m == |queue| || m == MAX_RECV_CHUNKS || m == |permits| || !permits[m].Granted?)
    decreases MAX_RECV_CHUNKS - k
  {
    if k < MAX_RECV_CHUNKS && k < |permits| && permits[k].Granted? && k < |queue| {
      UdpMovesExactly(queue, permits, k + 1);
    }
  }

  /** After m granted permits, one datagram each, the channel is full. */
  ghost predicate FullAt(queue: seq<seq<Byte>>, permits: seq<Permit>, m: nat) {
    && m <= |queue| && m < 128 && m <= |permits| && (forall i :: 0 <= i < m ==> permits[i].Granted?)
    && (m == |permits| || permits[m].Full?)
  }

  lemma {:induction false} MovesToFull(queue: seq<seq<Byte>>, permits: seq<Permit>, j: nat, k: nat)
    requires FullAt(queue, permits, k) && j <= k
    ensures UdpMoves(queue, permits, j) == k
    decreases k - j
  {
    if j < k { MovesToFull(queue, permits, j + 1, k); }
  }

  /** The turn reports a full channel exactly if that is where it stopped. */
  lemma UdpBusyExactly(queue: seq<seq<Byte>>, permits: seq<Permit>)
    ensures UdpBackpressured(queue, permits) <==> exists m :: FullAt(queue, permits, m)
  {
    var m := UdpMoves(queue, permits, 0);
    UdpMovesExactly(queue, permits, 0);
    assert UdpBackpressured(queue, permits) <==> FullAt(queue, permits, m);
    forall k: nat | FullAt(queue, permits, k) ensures k == m { MovesToFull(queue, permits, 0, k); }
  }

  /** The same for a UDP entry: the datagrams that arrived for it, and how many the application took. */
  datatype Datagrams = Datagrams(all: seq<seq<Byte>>, taken: nat)

  ghost function Received(d: Datagrams, s: State, e: Event, id: Id): Datagrams {
    if !UdpReady(s, id) then d
    else match e
      case PollSockets(news) =>
        if s.udp[id].handle in news then d.(all := d.all + news[s.udp[id].handle].datagrams) else d
      case UdpTurn(i, permits) =>
        if i == id && d.taken <= |d.all| then d.(taken := d.taken + UdpTaken(d.all[d.taken..], permits)) else d
      case _ => d
  }

  ghost function DatagramsOf(states: seq<State>, events: seq<Event>, n: nat, id: Id): Datagrams
    requires n <= |events| < |states|
  {
    if n == 0 then Datagrams([], 0)
    else Received(DatagramsOf(states, events, n - 1, id), states[n - 1], events[n - 1], id)
  }

  ghost predicate Holds(d: Datagrams, s: State, id: Id) {
    && (id in s.udp ==> UdpReady(s, id) && d.taken <= |d.all| && s.udp[id].toApp == d.all[..d.taken]
                        && s.sockets[s.udp[id].handle].queue == d.all[d.taken..])
    && (id >= s.nextId ==> d == Datagrams([], 0))
  }

  /** An event that leaves the UDP entry alone. */
  ghost predicate UdpAlone(s: State, t: State, id: Id) {
    && s.nextId <= t.nextId
    && (id in t.udp ==> UdpReady(s, id) && UdpReady(t, id) && t.udp[id] == s.udp[id]
                        && t.sockets[t.udp[id].handle] == s.sockets[s.udp[id].handle])
  }

  lemma TcpLeavesUdp(s: State, e: Event, close: Phase -> Phase, id: Id)
    requires Placed(s) && (e.OpenTcpCmd? || e.Syn? || e.Data? || e.CloseTcp?)
    ensures UdpAlone(s, Next(s, e, close), id)
  {
    if id in s.udp { assert UdpReady(s, id); }
  }

  lemma SettledLeavesUdp(s: State, at: Id, o: Outcome, id: Id)
    requires Placed(s) && at in s.tcp
    ensures UdpAlone(s, Settled(s, at, o), id)
  {
    assert TcpReady(s, at);
    if id in s.udp { assert UdpReady(s, id); }
  }

  lemma TurnLeavesUdp(s: State, at: Id, turn: Turn, close: Phase -> Phase, id: Id)
    requires Placed(s)
    ensures UdpAlone(s, ServeTcp(s, at, turn, close), id)
  {
    if at in s.tcp {
      assert TcpReady(s, at);
      SettledLeavesUdp(s, at, Serve(LinkOf(s, at), turn, close), id);
    } else if id in s.udp {
      assert UdpReady(s, id);
    }
  }

  lemma OpenUdpHolds(d: Datagrams, s: State, handle: Handle, ok: bool, id: Id)
    requires Placed(s) && Holds(d, s, id)
    ensures Holds(d, OpenUdp(s, handle, ok), id)
  {
    if id in s.udp { assert UdpReady(s, id); }
  }

  lemma CloseUdpHolds(d: Datagrams, s: State, at: Id, id: Id)
    requires Placed(s) && Holds(d, s, id)
    ensures Holds(d, UdpClose(s, at), id)
  {
    if id in s.udp { assert UdpReady(s, id); }
    if at in s.udp { assert UdpReady(s, at); }
  }

  lemma PollHolds(d: Datagrams, s: State, news: map<Handle, News>, id: Id)
    requires Placed(s) && Holds(d, s, id)
    ensures Holds(Received(d, s, PollSockets(news), id), Poll(s, news), id)
  {
    if id in s.udp {
      assert UdpReady(s, id);
      var g := Received(d, s, PollSockets(news), id);
      assert g.all[..d.taken] == d.all[..d.taken];
      assert g.all == d.all || g.all[d.taken..] == d.all[d.taken..] + news[s.udp[id].handle].datagrams;
    }
  }

  lemma UdpTurnHolds(d: Datagrams, s: State, at: Id, permits: seq<Permit>, id: Id)
    requires Placed(s) && Holds(d, s, id)
    ensures Holds(Received(d, s, UdpTurn(at, permits), id), ServeUdp(s, at, permits), id)
  {
    if at in s.udp {
      assert UdpReady(s, at);
      if id == at {
        var m := UdpTaken(d.all[d.taken..], permits);
        assert d.all[..d.taken] + d.all[d.taken..][..m] == d.all[..d.taken + m];
        assert d.all[d.taken..][m..] == d.all[d.taken + m..];
      } else if id in s.udp {
        assert UdpReady(s, id) && s.udp[id].handle != s.udp[at].handle;
      }
    }
  }

  lemma NextHolds(d: Datagrams, s: State, e: Event, close: Phase -> Phase, id: Id)
    requires Placed(s) && Holds(d, s, id)
    ensures Holds(Received(d, s, e, id), Next(s, e, close), id)
  {
    match e
    case OpenUdpCmd(handle, ok) => OpenUdpHolds(d, s, handle, ok, id);
    case CloseUdp(at) => CloseUdpHolds(d, s, at, id);
    case PollSockets(news) => PollHolds(d, s, news, id);
    case UdpTurn(at, permits) => UdpTurnHolds(d, s, at, permits, id);
    case TcpTurn(at, turn) => TurnLeavesUdp(s, at, turn, close, id);
    case _ => TcpLeavesUdp(s, e, close, id);
  }

  /** Over every run, a UDP entry's application has been given the first of the datagrams that arrived for
      it, as many as its turns took, and the others are queued. */
  lemma {:induction false} DatagramsHold(states: seq<State>, events: seq<Event>, close: Phase -> Phase, n: nat, id: Id)
    requires IsRun(states, events, close) && n <= |events|
    ensures Holds(DatagramsOf(states, events, n, id), states[n], id)
  {
    if n > 0 {
      var d := DatagramsOf(states, events, n - 1, id);
      assert Holds(d, states[n - 1], id) by { DatagramsHold(states, events, close, n - 1, id); }
      assert Placed(states[n - 1]) by { InvAlways(states, events, close, n - 1); }
      assert StepsTo(states[n - 1], events[n - 1], states[n], close);
      NextHolds(d, states[n - 1], events[n - 1], close, id);
    }
  }

  // ---- runs that lose bytes --------------------------------------------------------------

  /** A stack with one connection, opened by its only request. */
  function Solo(h: Handle, l: Link, replies: seq<Reply>): State {
    State(map[h := TcpSocket(l.sock)], map[1 := TcpEntry(h, l.conn)], map[], 2, 49153, 1, replies, [], map[])
  }

  lemma SoloOpens(h: Handle)
    ensures OpenTcp(INITIAL, h, true) == Solo(h, Opened(Some(0), SynSent), [])
  {
  }

  lemma SoloPolls(h: Handle, l: Link, replies: seq<Reply>, n: News)
    ensures Poll(Solo(h, l, replies), map[h := n]) == Solo(h, l.(sock := Polled(TcpSocket(l.sock), n).tcp), replies)
    ensures l.sock.rx == l.sock.received == [] ==>
              Polled(TcpSocket(l.sock), n) == TcpSocket(Socket(n.phase, n.data, n.data, l.sock.sent))
  {
    assert [] + n.data == n.data;
  }

  lemma SoloSets(h: Handle, l: Link, c: Conn, replies: seq<Reply>)
    ensures SetConn(Solo(h, l, replies), 1, c) == Solo(h, l.(conn := c), replies)
  {
  }

  lemma SoloTurns(h: Handle, l: Link, replies: seq<Reply>, turn: Turn, close: Phase -> Phase)
    requires var o := Serve(l, turn, close); !o.removed && !o.offered && (o.reply.Some? ==> l.conn.req.Some?)
    ensures var o := Serve(l, turn, close);
            ServeTcp(Solo(h, l, replies), 1, turn, close) == Solo(h, o.link,
              if o.reply.Some? then replies + [Reply(l.conn.req.value, o.reply.value)] else replies)
  {
    var o := Serve(l, turn, close);
    var s := Solo(h, l, replies);
    assert LinkOf(s, 1) == l;
    assert s.sockets[h := TcpSocket(o.link.sock)] == map[h := TcpSocket(o.link.sock)];
    assert s.tcp[1 := TcpEntry(h, o.link.conn)] == map[1 := TcpEntry(h, o.link.conn)];
  }

  /** The turn of the runs below: the socket takes nothing and the channel is full. */
  const STUCK := Turn(false, 0, [])

  function Up(phase: Phase, c: Conn, rx: seq<Byte>): Link {
    Link(c, Socket(phase, rx, rx, []))
  }

  const HANDED := Conn(None, Handed, [], true, false, [], [], [])

  lemma Establishing(close: Phase -> Phase)
    ensures var o := Serve(Link(Opened(Some(0), SynSent).conn, Socket(Established, [], [], [])), STUCK, close);
            o == Outcome(Up(Established, HANDED, []), Some(true), false, false, true)
  {
    var l := Link(Opened(Some(0), SynSent).conn, Socket(Established, [], [], []));
    assert Pulled(l, STUCK, close) == Pull(Up(Established, HANDED, []), false, true);
  }

  /** Three steps bring a connection up. */
  lemma ComesUp(h: Handle, close: Phase -> Phase) returns (states: seq<State>, events: seq<Event>)
    ensures IsRun(states, events, close) && |events| == 3
    ensures states[3] == Solo(h, Up(Established, HANDED, []), [Reply(0, true)])
  {
    var news := News(Established, [], []);
    var first := Opened(Some(0), SynSent);
    var seen := Link(first.conn, Socket(Established, [], [], []));
    var s1, s2, s3 := Solo(h, first, []), Solo(h, seen, []), Solo(h, Up(Established, HANDED, []), [Reply(0, true)]);
    states := [INITIAL, s1, s2, s3];
    events := [OpenTcpCmd(h, true), PollSockets(map[h := news]), TcpTurn(1, STUCK)];
    assert StepsTo(INITIAL, events[0], s1, close) by { SoloOpens(h); }
    assert StepsTo(s1, events[1], s2, close) by { SoloPolls(h, first, [], news); }
    assert StepsTo(s2, events[2], s3, close) by {
      Establishing(close);
      SoloTurns(h, seen, [], STUCK, close);
    }
  }

  lemma Extend(states: seq<State>, events: seq<Event>, e: Event, t: State, close: Phase -> Phase)
    requires IsRun(states, events, close) && StepsTo(states[|events|], e, t, close)
    ensures IsRun(states + [t], events + [e], close)
  {
    var ss, es := states + [t], events + [e];
    forall i | 0 <= i < |es| ensures StepsTo(ss[i], es[i], ss[i + 1], close) {
      if i < |events| { assert StepsTo(states[i], events[i], states[i + 1], close); }
    }
  }

  /** A byte arrives and the peer closes; the channel is full; the connection is removed with the byte
      unread. */
  lemma UnreadByteIsLost(h: Handle, b: Byte, close: Phase -> Phase) returns (states: seq<State>, events: seq<Event>)
    ensures IsRun(states, events, close) && |events| == 5 && 1 in states[3].tcp && 1 in states[5].retired
    ensures states[5].retired[1] == Up(Closed, HANDED, [b]) && !AllReached(states[5].retired[1])
  {
    states, events := ComesUp(h, close);
    var news, replies := News(Closed, [b], []), [Reply(0, true)];
    var s4 := Solo(h, Up(Closed, HANDED, [b]), replies);
    assert StepsTo(states[3], PollSockets(map[h := news]), s4, close) by {
      SoloPolls(h, Up(Established, HANDED, []), replies, news);
      assert [] + [b] == [b];
    }
    Extend(states, events, PollSockets(map[h := news]), s4, close);
    states, events := states + [s4], events + [PollSockets(map[h := news])];
    var s5 := ServeTcp(s4, 1, STUCK, close);
    RemovalLosesUnread(b, close);
    assert LinkOf(s4, 1) == Up(Closed, HANDED, [b]);
    Extend(states, events, TcpTurn(1, STUCK), s5, close);
    states, events := states + [s5], events + [TcpTurn(1, STUCK)];
  }

  const ASKED := Conn(None, Handed, [7], true, true, [7], [], [])

  /** The application writes a byte and asks for a close. */
  lemma AsksToClose(h: Handle, close: Phase -> Phase) returns (states: seq<State>, events: seq<Event>)
    ensures IsRun(states, events, close) && |events| == 5
    ensures states[5] == Solo(h, Up(Established, ASKED, []), [Reply(0, true)])
  {
    states, events := ComesUp(h, close);
    var replies, wrote := [Reply(0, true)], ASKED.(halfClosed := false);
    var s4, s5 := Solo(h, Up(Established, wrote, []), replies), Solo(h, Up(Established, ASKED, []), replies);
    assert StepsTo(states[3], Data(1, [7]), s4, close) by {
      SoloSets(h, Up(Established, HANDED, []), wrote, replies);
      assert FromApp(HANDED, [7]) == wrote;
    }
    Extend(states, events, Data(1, [7]), s4, close);
    states, events := states + [s4], events + [Data(1, [7])];
    assert StepsTo(s4, CloseTcp(1), s5, close) by { SoloSets(h, Up(Established, wrote, []), ASKED, replies); }
    Extend(states, events, CloseTcp(1), s5, close);
    states, events := states + [s5], events + [CloseTcp(1)];
  }

  /** The peer closes while the socket is full: the socket is closed over the byte. */
  lemma PendingByteIsCut(h: Handle, close: Phase -> Phase) returns (states: seq<State>, events: seq<Event>)
    ensures IsRun(states, events, close) && |events| == 7 && 1 in states[7].tcp
    ensures var c := states[7].tcp[1].conn; c.halfClosed && c.pending == [7] && c.closes == [Close(PeerClosed, 1)]
  {
    states, events := AsksToClose(h, close);
    var news, replies := News(CloseWait, [], []), [Reply(0, true)];
    var s6 := Solo(h, Up(CloseWait, ASKED, []), replies);
    assert StepsTo(states[5], PollSockets(map[h := news]), s6, close) by {
      SoloPolls(h, Up(Established, ASKED, []), replies, news);
    }
    Extend(states, events, PollSockets(map[h := news]), s6, close);
    states, events := states + [s6], events + [PollSockets(map[h := news])];
    var o := Serve(Up(CloseWait, ASKED, []), STUCK, close);
    assert o.link.conn == ASKED.(closes := [Close(PeerClosed, 1)]) && !o.removed && !o.offered && o.reply.None? by {
      CutOver(ASKED, close);
    }
    SoloTurns(h, Up(CloseWait, ASKED, []), replies, STUCK, close);
    var s7 := Solo(h, o.link, replies);
    Extend(states, events, TcpTurn(1, STUCK), s7, close);
    states, events := states + [s7], events + [TcpTurn(1, STUCK)];
  }

  /** The peer resets instead: the connection is removed with the byte pending. */
  lemma PendingByteIsLost(h: Handle, close: Phase -> Phase) returns (states: seq<State>, events: seq<Event>)
    ensures IsRun(states, events, close) && |events| == 7 && 1 in states[7].retired
    ensures states[7].retired[1] == Up(Closed, ASKED, [])
  {
    states, events := AsksToClose(h, close);
    var news, replies := News(Closed, [], []), [Reply(0, true)];
    var s6 := Solo(h, Up(Closed, ASKED, []), replies);
    assert StepsTo(states[5], PollSockets(map[h := news]), s6, close) by {
      SoloPolls(h, Up(Established, ASKED, []), replies, news);
    }
    Extend(states, events, PollSockets(map[h := news]), s6, close);
    states, events := states + [s6], events + [PollSockets(map[h := news])];
    var s7 := ServeTcp(s6, 1, STUCK, close);
    assert s7.retired == map[1 := Up(Closed, ASKED, [])] by {
      assert LinkOf(s6, 1) == Up(Closed, ASKED, []);
      StuckRemoval(ASKED, close);
    }
    Extend(states, events, TcpTurn(1, STUCK), s7, close);
    states, events := states + [s7], events + [TcpTurn(1, STUCK)];
  }

  lemma StuckRemoval(c: Conn, close: Phase -> Phase)
    requires c == ASKED
    ensures var o := Serve(Up(Closed, c, []), STUCK, close); o.removed && o.link == Up(Closed, c, [])
  {
    var l := Up(Closed, c, []);
    assert Pulled(l, STUCK, close) == Pull(l, false, true);
  }

  lemma CutOver(c: Conn, close: Phase -> Phase)
    requires c == ASKED
    ensures var o := Serve(Up(CloseWait, c, []), STUCK, close);
            o.link.conn == c.(closes := [Close(PeerClosed, 1)]) && !o.removed && !o.offered && o.reply.None?
  {
    var l := Up(CloseWait, c, []);
    assert Pulled(l, STUCK, close) == Pull(l, false, true);
  }

  // ---- the stack itself ------------------------------------------------------------------------

  /** A run of service turns, in the order of a snapshot of the ids. */
  function ServeAll(s: State, ids: seq<Id>, turns: seq<Turn>, close: Phase -> Phase, n: nat): State
    requires n <= |ids| == |turns|
  {
    if n == 0 then s else ServeTcp(ServeAll(s, ids, turns, close, n - 1), ids[n - 1], turns[n - 1], close)
  }

  /** Whether some turn left data behind for want of room in the application's channel. */
  predicate AnyBackpressured(s: State, ids: seq<Id>, turns: seq<Turn>, close: Phase -> Phase, n: nat)
    requires n <= |ids| == |turns|
  {
    n > 0 && (AnyBackpressured(s, ids, turns, close, n - 1)
              || Backpressured(ServeAll(s, ids, turns, close, n - 1), ids[n - 1], turns[n - 1], close))
  }

  lemma {:induction false} ServeAllKeeps(s: State, ids: seq<Id>, turns: seq<Turn>, close: Phase -> Phase, n: nat)
    requires n <= |ids| == |turns| && Inv(s)
    ensures Inv(ServeAll(s, ids, turns, close, n))
  {
    if n > 0 {
      ServeAllKeeps(s, ids, turns, close, n - 1);
      ServeTcpKeeps(ServeAll(s, ids, turns, close, n - 1), ids[n - 1], turns[n - 1], close);
    }
  }

  class NetStack {
    var sockets: map<Handle, AnySocket>
    var tcp: map<Id, TcpEntry>
    var udp: map<Id, UdpEntry>
    var nextId: nat
    var nextPort: nat
    var asked: nat
    var replies: seq<Reply>
    var offered: seq<Id>
    ghost var retired: map<Id, Link>

    ghost function Abs(): State
      reads this
    {
      State(sockets, tcp, udp, nextId, nextPort, asked, replies, offered, retired)
    }

    constructor ()
      ensures Abs() == INITIAL && Inv(Abs())
    {
      sockets, tcp, udp, nextId, nextPort, asked, replies, offered := map[], map[], map[], 1, 49152, 0, [], [];
      retired := map[];
    }

    /** Hands out the port at hand: the next of the cycle through 49152..65000. */
    method AllocPort() returns (p: nat)
      requires nextPort == PortAfter(asked)
      modifies this`nextPort
      ensures p == 49152 + asked % 15849 && nextPort == PortAfter(asked + 1)
    {
      PortsCycle(asked);
      p := nextPort;
      nextPort := if p >= 65000 then 49152 else p + 1;
    }

    method AddTcpSocket(handle: Handle, req: Option<nat>, phase: Phase)
      requires handle !in sockets
      modifies this
      ensures Abs() == AddTcp(old(Abs()), handle, req, phase)
    {
      sockets := sockets[handle := TcpSocket(Socket(phase, [], [], []))];
      var id := nextId;
      nextId := nextId + 1;
      tcp := tcp[id := TcpEntry(handle, Conn(req, Held, [], false, false, [], [], []))];
    }

    method HandleOpenTcp(handle: Handle, ok: bool) returns (port: nat)
      requires Inv(Abs()) && (ok ==> handle !in sockets)
      modifies this
      ensures Abs() == OpenTcp(old(Abs()), handle, ok) && Inv(Abs())
      ensures port == 49152 + old(asked) % 15849
    {
      assert Inv(OpenTcp(Abs(), handle, ok)) by { OpenTcpKeeps(Abs(), handle, ok); }
      port := AllocPort();
      var req := asked;
      asked := asked + 1;
      if !ok {
        replies := replies + [Reply(req, false)];
        return;
      }
      AddTcpSocket(handle, Some(req), SynSent);
    }

    method HandleOpenUdp(handle: Handle, ok: bool) returns (port: nat)
      requires Inv(Abs()) && (ok ==> handle !in sockets)
      modifies this
      ensures Abs() == OpenUdp(old(Abs()), handle, ok) && Inv(Abs())
      ensures port == 49152 + old(asked) % 15849
    {
      assert Inv(OpenUdp(Abs(), handle, ok)) by { OpenUdpKeeps(Abs(), handle, ok); }
      port := AllocPort();
      var req := asked;
      asked := asked + 1;
      if !ok {
        replies := replies + [Reply(req, false)];
        return;
      }
      sockets := sockets[handle := UdpSocket([], [])];
      udp := udp[nextId := UdpEntry(handle, [])];
      nextId := nextId + 1;
      replies := replies + [Reply(req, true)];
    }

    method HandleSyn(handle: Handle, ok: bool)
      requires Inv(Abs()) && (ok ==> handle !in sockets)
      modifies this
      ensures Abs() == AcceptSyn(old(Abs()), handle, ok) && Inv(Abs())
    {
      assert Inv(AcceptSyn(Abs(), handle, ok)) by { AcceptSynKeeps(Abs(), handle, ok); }
      if ok { AddTcpSocket(handle, None, Listen); }
    }

    method HandleTcpData(id: Id, data: seq<Byte>)
      requires Inv(Abs())
      modifies this
      ensures Abs() == TcpData(old(Abs()), id, data) && Inv(Abs())
    {
      assert Inv(TcpData(Abs(), id, data)) by { TcpDataKeeps(Abs(), id, data); }
      if id in tcp {
        var st := tcp[id].conn;
        tcp := tcp[id := tcp[id].(conn := st.(pending := st.pending + data, fromApp := st.fromApp + data))];
      }
    }

    method HandleTcpClose(id: Id)
      requires Inv(Abs())
      modifies this
      ensures Abs() == TcpClose(old(Abs()), id) && Inv(Abs())
    {
      assert Inv(TcpClose(Abs(), id)) by { TcpCloseKeeps(Abs(), id); }
      if id in tcp { tcp := tcp[id := tcp[id].(conn := tcp[id].conn.(halfClosed := true))]; }
    }

    method HandleUdpClose(id: Id)
      requires Inv(Abs())
      modifies this
      ensures Abs() == UdpClose(old(Abs()), id) && Inv(Abs())
    {
      assert Inv(UdpClose(Abs(), id)) by { UdpCloseKeeps(Abs(), id); }
      if id in udp {
        var st := udp[id];
        udp := udp - {id};
        sockets := sockets - {st.handle};
      }
    }

    /** Writes the outcome of a turn back. */
    method Settle(id: Id, st: TcpEntry, o: Outcome)
      requires TcpReady(Abs(), id) && tcp[id] == st
      modifies this
      ensures Abs() == Settled(old(Abs()), id, o)
    {
      if o.reply.Some? && st.conn.req.Some? { replies := replies + [Reply(st.conn.req.value, o.reply.value)]; }
      if o.offered { offered := offered + [id]; }
      if o.removed {
        retired := retired[id := o.link];
        sockets, tcp := sockets - {st.handle}, tcp - {id};
      } else {
        sockets, tcp := sockets[st.handle := TcpSocket(o.link.sock)], tcp[id := TcpEntry(st.handle, o.link.conn)];
      }
    }

    method ServiceOne(id: Id, turn: Turn, close: Phase -> Phase) returns (busy: bool)
      requires id in tcp ==> TcpReady(Abs(), id)
      modifies this
      ensures Abs() == ServeTcp(old(Abs()), id, turn, close)
      ensures busy == Backpressured(old(Abs()), id, turn, close)
    {
      if id !in tcp { return false; }
      var st := tcp[id];
      var o := ServiceLink(Link(st.conn, sockets[st.handle].tcp), turn, close);
      Settle(id, st, o);
      return o.busy;
    }

    /** The service loop over a snapshot of the ids. */
    method ServiceTcp(ids: seq<Id>, turns: seq<Turn>, close: Phase -> Phase) returns (busy: bool)
      requires Inv(Abs()) && |ids| == |turns|
      modifies this
      ensures Abs() == ServeAll(old(Abs()), ids, turns, close, |ids|)
      ensures busy == AnyBackpressured(old(Abs()), ids, turns, close, |ids|)
      ensures Inv(Abs())
    {
      busy := false;
      for i := 0 to |ids|
        invariant Abs() == ServeAll(old(Abs()), ids, turns, close, i)
        invariant busy == AnyBackpressured(old(Abs()), ids, turns, close, i)
      {
        assert ids[i] in tcp ==> TcpReady(Abs(), ids[i]) by { ServeAllKeeps(old(Abs()), ids, turns, close, i); }
        var b := ServiceOne(ids[i], turns[i], close);
        busy := busy || b;
      }
      assert Inv(Abs()) by { ServeAllKeeps(old(Abs()), ids, turns, close, |ids|); }
    }

    /** The datagram loop of one socket. */
    method ServiceUdp(id: Id, permits: seq<Permit>) returns (busy: bool)
      requires id in udp ==> UdpReady(Abs(), id)
      modifies this
      ensures Abs() == ServeUdp(old(Abs()), id, permits)
      ensures busy == (id in old(udp) && UdpBackpressured(old(sockets)[old(udp)[id].handle].queue, permits))
    {
      busy := false;
      if id in udp {
        var h := udp[id].handle;
        var queue, toApp, delivered := sockets[h].queue, udp[id].toApp, 0;
        ghost var all, had := queue, toApp;
        while delivered < MAX_RECV_CHUNKS
          invariant delivered <= MAX_RECV_CHUNKS && delivered <= |all|
          invariant queue == all[delivered..] && toApp == had + all[..delivered]
          invariant !busy && UdpMoves(all, permits, 0) == UdpMoves(all, permits, delivered)
        {
          if delivered >= |permits| || permits[delivered].Full? { busy := true; break; }
          if permits[delivered].Gone? { break; }
          if queue == [] { break; }
          assert all[..delivered] + [queue[0]] == all[..delivered + 1];
          toApp := toApp + [queue[0]];
          queue := queue[1..];
          delivered := delivered + 1;
        }
        sockets := sockets[h := UdpSocket(queue, sockets[h].arrived)];
        udp := udp[id := UdpEntry(h, toApp)];
      }
    }
  }
}
