/** The capsule protocol (section 3.2 of RFC 9297) and the CONNECT-IP capsules inside it. */
module Capsules {
  import opened Bytes
  import V = Varint

  const DATAGRAM := 0
  const ADDRESS_ASSIGN := 1
  const ADDRESS_REQUEST := 2
  const ROUTE_ADVERTISEMENT := 3

  const MAX_BUFFER := 262144

  datatype Assigned = Assigned(requestId: V.Varint62, version: Byte, address: seq<Byte>, prefix: Byte)
  datatype Route = Route(version: Byte, first: seq<Byte>, last: seq<Byte>, protocol: Byte)

  datatype Capsule =
    | AddressAssign(addresses: seq<Assigned>)
    | AddressRequest
    | Datagram(payload: seq<Byte>)
    | RouteAdvertisement(routes: seq<Route>)
    | Unknown(kind: V.Varint62, value: seq<Byte>)

  /** A parsed capsule, or the error of one whose value is malformed. */
  datatype Item = Good(capsule: Capsule) | Malformed

  function AddressLength(version: Byte): Option<nat> {
    if version == 4 then Some(4) else if version == 6 then Some(16) else None
  }

  // ---- list-valued capsules ------------------------------------------------------------------

  datatype OneAssigned = OneAssigned(a: Assigned, used: nat)

  function FirstAssigned(b: seq<Byte>): (r: Option<OneAssigned>)
    ensures r.Some? ==> 0 < r.value.used <= |b|
  {
    match V.Get(b)
    case None => None
    case Some(id) =>
      if |b| < id.used + 1 then None
      else match AddressLength(b[id.used])
        case None => None
        case Some(n) =>
          var at := id.used + 1;
          if |b| < at + n + 1 then None
          else Some(OneAssigned(Assigned(id.value, b[id.used], b[at..at + n], b[at + n]), at + n + 1))
  }

  function AssignedList(b: seq<Byte>): Option<seq<Assigned>>
    decreases |b|
  {
    if b == [] then Some([])
    else match FirstAssigned(b)
      case None => None
      case Some(one) =>
        match AssignedList(b[one.used..])
        case None => None
        case Some(rest) => Some([one.a] + rest)
  }

  function Prepend<T>(list: seq<T>, tail: Option<seq<T>>): Option<seq<T>> {
    if tail.None? then None else Some(list + tail.value)
  }

  lemma AssignedListStep(b: seq<Byte>)
    requires FirstAssigned(b).Some?
    ensures var one := FirstAssigned(b).value; AssignedList(b) == Prepend([one.a], AssignedList(b[one.used..]))
  {
  }

  lemma PrependTwice<T>(list: seq<T>, a: T, tail: Option<seq<T>>)
    ensures Prepend(list, Prepend([a], tail)) == Prepend(list + [a], tail)
  {
    if tail.Some? { ConcatAssociative(list, [a], tail.value); }
  }

  /** The parser's cursor loop. */
  method ParseAddressAssign(value: seq<Byte>) returns (out: Option<seq<Assigned>>)
    ensures out == AssignedList(value)
  {
    var at, list := 0, [];
    ghost var all := AssignedList(value);
    assert value[0..] == value;
    assert all.Some? ==> [] + all.value == all.value;
    while at < |value|
      invariant at <= |value|
      invariant all == Prepend(list, AssignedList(value[at..]))
    {
      var one := FirstAssigned(value[at..]);
      if one.None? { return None; }
      var next := at + one.value.used;
      AssignedListStep(value[at..]);
      assert value[at..][one.value.used..] == value[next..];
      PrependTwice(list, one.value.a, AssignedList(value[next..]));
      list, at := list + [one.value.a], next;
    }
    assert list + [] == list;
    return Some(list);
  }

  /** An IPv4 address has four bytes, an IPv6 address sixteen. */
  predicate IsAddress(version: Byte, address: seq<Byte>) {
    (version == 4 && |address| == 4) || (version == 6 && |address| == 16)
  }

  predicate ValidAssigned(a: Assigned) {
    IsAddress(a.version, a.address)
  }

  function PutAssigned(a: Assigned): seq<Byte> {
    V.Put(a.requestId) + ([a.version] + a.address + [a.prefix])
  }

  function PutAllAssigned(list: seq<Assigned>): seq<Byte> {
    if list == [] then [] else PutAssigned(list[0]) + PutAllAssigned(list[1..])
  }

  lemma FirstAssignedRoundTrip(a: Assigned, rest: seq<Byte>)
    requires ValidAssigned(a)
    ensures FirstAssigned(PutAssigned(a) + rest) == Some(OneAssigned(a, |PutAssigned(a)|))
  {
    var n := V.Length(a.requestId);
    var tail := [a.version] + a.address + [a.prefix];
    var b := PutAssigned(a) + rest;
    ConcatAssociative(V.Put(a.requestId), tail, rest);
    V.RoundTrip(a.requestId, tail + rest);
    assert b[n..] == tail + rest;
    AssignedFields(a, rest);
    var len := |a.address|;
    assert b[n] == b[n..][0] && b[n + 1 + len] == b[n..][1 + len];
    assert b[n + 1..n + 1 + len] == b[n..][1..1 + len];
  }

  lemma AssignedFields(a: Assigned, rest: seq<Byte>)
    ensures var body := [a.version] + a.address + [a.prefix] + rest;
            body[0] == a.version && body[1..1 + |a.address|] == a.address && body[1 + |a.address|] == a.prefix
  {
    var body := [a.version] + a.address + [a.prefix] + rest;
    forall i | 0 <= i < |a.address| ensures body[1 + i] == a.address[i] {}
  }

  /** Every assignment list that can be written is read back exactly. */
  lemma {:induction false} AssignedRoundTrip(list: seq<Assigned>)
    requires forall i :: 0 <= i < |list| ==> ValidAssigned(list[i])
    ensures AssignedList(PutAllAssigned(list)) == Some(list)
  {
    if list != [] {
      var b := PutAllAssigned(list);
      FirstAssignedRoundTrip(list[0], PutAllAssigned(list[1..]));
      AssignedListStep(b);
      assert b[|PutAssigned(list[0])|..] == PutAllAssigned(list[1..]);
      AssignedRoundTrip(list[1..]);
      assert [list[0]] + list[1..] == list;
    }
  }

  /** Only addresses of the right length are ever read. */
  lemma {:induction false} AssignedAreValid(b: seq<Byte>)
    requires AssignedList(b).Some?
    ensures forall i :: 0 <= i < |AssignedList(b).value| ==> ValidAssigned(AssignedList(b).value[i])
    decreases |b|
  {
    if b != [] {
      var one := FirstAssigned(b).value;
      AssignedListStep(b);
      AssignedAreValid(b[one.used..]);
    }
  }

  datatype OneRoute = OneRoute(r: Route, used: nat)

  function FirstRoute(b: seq<Byte>): (r: Option<OneRoute>)
    requires b != []
    ensures r.Some? ==> 0 < r.value.used <= |b|
  {
    match AddressLength(b[0])
    case None => None
    case Some(n) =>
      if |b| < 2 * n + 2 then None
      else Some(OneRoute(Route(b[0], b[1..1 + n], b[1 + n..1 + 2 * n], b[1 + 2 * n]), 2 * n + 2))
  }

  function RouteList(b: seq<Byte>): Option<seq<Route>>
    decreases |b|
  {
    if b == [] then Some([])
    else match FirstRoute(b)
      case None => None
      case Some(one) =>
        match RouteList(b[one.used..])
        case None => None
        case Some(rest) => Some([one.r] + rest)
  }

  lemma RouteListStep(b: seq<Byte>)
    requires b != [] && FirstRoute(b).Some?
    ensures var one := FirstRoute(b).value; RouteList(b) == Prepend([one.r], RouteList(b[one.used..]))
  {
  }

  method ParseRouteAdvertisement(value: seq<Byte>) returns (out: Option<seq<Route>>)
    ensures out == RouteList(value)
  {
    var at, list := 0, [];
    ghost var all := RouteList(value);
    assert value[0..] == value;
    assert all.Some? ==> [] + all.value == all.value;
    while at < |value|
      invariant at <= |value|
      invariant all == Prepend(list, RouteList(value[at..]))
    {
      var one := FirstRoute(value[at..]);
      if one.None? { return None; }
      var next := at + one.value.used;
      RouteListStep(value[at..]);
      assert value[at..][one.value.used..] == value[next..];
      PrependTwice(list, one.value.r, RouteList(value[next..]));
      list, at := list + [one.value.r], next;
    }
    assert list + [] == list;
    return Some(list);
  }

  predicate ValidRoute(r: Route) {
    IsAddress(r.version, r.first) && IsAddress(r.version, r.last)
  }

  function PutRoute(r: Route): seq<Byte> {
    [r.version] + (r.first + (r.last + [r.protocol]))
  }

  function PutAllRoutes(list: seq<Route>): seq<Byte> {
    if list == [] then [] else PutRoute(list[0]) + PutAllRoutes(list[1..])
  }

  predicate AllRoutes(list: seq<Route>) {
    forall i :: 0 <= i < |list| ==> ValidRoute(list[i])
  }

  lemma RouteFields(r: Route, rest: seq<Byte>)
    requires ValidRoute(r)
    ensures FirstRoute(PutRoute(r) + rest) == Some(OneRoute(r, |PutRoute(r)|))
  {
    var b, n := PutRoute(r) + rest, |r.first|;
    assert b[0] == r.version && b[1 + 2 * n] == r.protocol;
    assert b[1..1 + n] == r.first;
    assert b[1 + n..1 + 2 * n] == r.last;
  }

  /** The first route read is the one written there. */
  lemma FirstRouteWritten(b: seq<Byte>)
    requires b != [] && FirstRoute(b).Some?
    ensures var one := FirstRoute(b).value; ValidRoute(one.r) && PutRoute(one.r) == b[..one.used]
  {
    var one := FirstRoute(b).value;
    var n := |one.r.first|;
    assert b[..2 * n + 2] == [b[0]] + (b[1..1 + n] + (b[1 + n..1 + 2 * n] + [b[1 + 2 * n]]));
  }

  /** Exactly the written lists are read, each as itself. */
  lemma {:induction false} RoutesExactly(b: seq<Byte>, list: seq<Route>)
    ensures RouteList(b) == Some(list) <==> AllRoutes(list) && PutAllRoutes(list) == b
    decreases |b|
  {
    if b == [] {
      assert list != [] ==> |PutAllRoutes(list)| > 0;
    } else if list != [] {
      var r, more := list[0], PutAllRoutes(list[1..]);
      assert list == [r] + list[1..];
      assert AllRoutes(list) <==> ValidRoute(r) && AllRoutes(list[1..]) by { RoutesSplit(list); }
      if FirstRoute(b).Some? {
        var one := FirstRoute(b).value;
        FirstRouteWritten(b);
        RoutesExactly(b[one.used..], list[1..]);
        RouteListStep(b);
        if one.r == r {
          assert b == b[..one.used] + b[one.used..];
        }
      }
      if ValidRoute(r) && PutRoute(r) + more == b {
        RouteFields(r, more);
        assert b[|PutRoute(r)|..] == more;
      }
    }
  }

  lemma RoutesSplit(list: seq<Route>)
    requires list != []
    ensures AllRoutes(list) <==> ValidRoute(list[0]) && AllRoutes(list[1..])
  {
    if ValidRoute(list[0]) && AllRoutes(list[1..]) {
      forall i | 0 <= i < |list| ensures ValidRoute(list[i]) { assert i > 0 ==> list[i] == list[1..][i - 1]; }
    }
    if AllRoutes(list) {
      forall i | 0 <= i < |list| - 1 ensures ValidRoute(list[1..][i]) { assert list[1..][i] == list[i + 1]; }
    }
  }

  // ---- capsules ------------------------------------------------------------------------------

  function Interpret(kind: V.Varint62, value: seq<Byte>): Item {
    if kind == ADDRESS_ASSIGN then
      (match AssignedList(value) case None => Malformed case Some(l) => Good(AddressAssign(l)))
    else if kind == ADDRESS_REQUEST then Good(AddressRequest)
    else if kind == ROUTE_ADVERTISEMENT then
      (match RouteList(value) case None => Malformed case Some(l) => Good(RouteAdvertisement(l)))
    else if kind == DATAGRAM then Good(Datagram(value))
    else Good(Unknown(kind, value))
  }

  datatype Parsed = Incomplete | Complete(item: Item, used: nat)

  /** The first capsule of a buffer. */
  function First(b: seq<Byte>): (p: Parsed)
    ensures p.Complete? ==> 0 < p.used <= |b|
  {
    match V.Get(b)
    case None => Incomplete
    case Some(kind) =>
      match V.Get(b[kind.used..])
      case None => Incomplete
      case Some(len) =>
        var at := kind.used + len.used;
        if |b| - at < len.value then Incomplete
        else Complete(Interpret(kind.value, b[at..at + len.value]), at + len.value)
  }

  datatype Stream = Stream(items: seq<Item>, rest: seq<Byte>)

  /** All complete capsules of a byte stream, and the incomplete tail. */
  function ParseAll(b: seq<Byte>): Stream
    decreases |b|
  {
    match First(b)
    case Incomplete => Stream([], b)
    case Complete(item, used) =>
      var more := ParseAll(b[used..]);
      Stream([item] + more.items, more.rest)
  }

  lemma FirstStable(b: seq<Byte>, more: seq<Byte>)
    requires First(b).Complete?
    ensures First(b + more) == First(b)
    ensures (b + more)[First(b).used..] == b[First(b).used..] + more
  {
    var kind := V.Get(b).value;
    var len := V.Get(b[kind.used..]).value;
    var at := kind.used + len.used;
    assert V.Get(b + more) == V.Get(b) by { V.Stable(b, more); }
    assert V.Get((b + more)[kind.used..]) == V.Get(b[kind.used..]) by { LengthStable(b, more, kind.used); }
    assert (b + more)[at..at + len.value] == b[at..at + len.value] by { SliceStable(b, more, at, at + len.value); }
    assert (b + more)[at + len.value..] == b[at + len.value..] + more by { TailStable(b, more, at + len.value); }
  }

  lemma LengthStable(b: seq<Byte>, more: seq<Byte>, at: nat)
    requires at <= |b| && V.Get(b[at..]).Some?
    ensures V.Get((b + more)[at..]) == V.Get(b[at..])
  {
    TailStable(b, more, at);
    V.Stable(b[at..], more);
  }

  lemma SliceStable(b: seq<Byte>, more: seq<Byte>, at: nat, end: nat)
    requires at <= end <= |b|
    ensures (b + more)[at..end] == b[at..end]
  {
  }

  lemma TailStable(b: seq<Byte>, more: seq<Byte>, at: nat)
    requires at <= |b|
    ensures (b + more)[at..] == b[at..] + more
  {
  }

  /** Parsing does not depend on where the stream is cut. */
  lemma {:induction false} ParseAllAppend(a: seq<Byte>, b: seq<Byte>)
    ensures var pa := ParseAll(a);
            var pb := ParseAll(pa.rest + b);
            ParseAll(a + b) == Stream(pa.items + pb.items, pb.rest)
    decreases |a|
  {
    match First(a)
    case Incomplete =>
    case Complete(item, used) =>
      FirstStable(a, b);
      ParseAllAppend(a[used..], b);
      var tail := ParseAll(a[used..]);
      ConcatAssociative([item], tail.items, ParseAll(tail.rest + b).items);
  }

  function Encode(kind: V.Varint62, value: seq<Byte>): seq<Byte>
    requires |value| < 0x4000_0000_0000_0000
  {
    V.Put(kind) + (V.Put(|value|) + value)
  }

  /** The parser inverts the encoder, whatever follows. */
  lemma RoundTrip(kind: V.Varint62, value: seq<Byte>, rest: seq<Byte>)
    requires |value| < 0x4000_0000_0000_0000
    ensures First(Encode(kind, value) + rest) == Complete(Interpret(kind, value), |Encode(kind, value)|)
  {
    var k, l := V.Put(kind), V.Put(|value|);
    var b := Encode(kind, value) + rest;
    ConcatAssociative(k, l + value, rest);
    ConcatAssociative(l, value, rest);
    V.RoundTrip(kind, l + (value + rest));
    assert b[|k|..] == l + (value + rest);
    V.RoundTrip(|value|, value + rest);
    assert b[|k| + |l|..|k| + |l| + |value|] == value;
  }

  /** What each kind of capsule delivers: the list, the routes or the payload that was written into it. */
  lemma Delivered(list: seq<Assigned>, routes: seq<Route>, kind: V.Varint62, payload: seq<Byte>, rest: seq<Byte>)
    requires (forall i :: 0 <= i < |list| ==> ValidAssigned(list[i])) && AllRoutes(routes)
    requires |PutAllAssigned(list)| < 0x4000_0000_0000_0000 && |PutAllRoutes(routes)| < 0x4000_0000_0000_0000
    requires |payload| < 0x4000_0000_0000_0000
    ensures var b := Encode(ADDRESS_ASSIGN, PutAllAssigned(list)); First(b + rest) == Complete(Good(AddressAssign(list)), |b|)
    ensures var b := Encode(ROUTE_ADVERTISEMENT, PutAllRoutes(routes));
            First(b + rest) == Complete(Good(RouteAdvertisement(routes)), |b|)
    ensures var b := Encode(DATAGRAM, payload); First(b + rest) == Complete(Good(Datagram(payload)), |b|)
    ensures var b := Encode(ADDRESS_REQUEST, payload); First(b + rest) == Complete(Good(AddressRequest), |b|)
    ensures kind > 3 ==> var b := Encode(kind, payload); First(b + rest) == Complete(Good(Unknown(kind, payload)), |b|)
  {
    AssignedRoundTrip(list);
    RoutesExactly(PutAllRoutes(routes), routes);
    RoundTrip(ADDRESS_ASSIGN, PutAllAssigned(list), rest);
    RoundTrip(ROUTE_ADVERTISEMENT, PutAllRoutes(routes), rest);
    RoundTrip(DATAGRAM, payload, rest);
    RoundTrip(ADDRESS_REQUEST, payload, rest);
    RoundTrip(kind, payload, rest);
  }

  // ---- the incremental parser ----------------------------------------------------------------

  /** What `push` leaves in the buffer: an overflowing push drops everything. */
  function AfterPush(buf: seq<Byte>, data: seq<Byte>): seq<Byte> {
    if |buf| + |data| > MAX_BUFFER then [] else buf + data
  }

  class CapsuleParser {
    var buf: seq<Byte>

    constructor ()
      ensures buf == []
    {
      buf := [];
    }

    method Push(data: seq<Byte>)
      modifies this`buf
      ensures buf == AfterPush(old(buf), data)
      ensures |old(buf)| <= MAX_BUFFER ==> |buf| <= MAX_BUFFER
    {
      if |buf| + |data| > MAX_BUFFER {
        buf := [];
        return;
      }
      buf := buf + data;
    }

    /** The next capsule, if the buffer holds a complete one; a malformed capsule is consumed too. */
    method Next() returns (item: Option<Item>)
      modifies this`buf
      ensures item == (if First(old(buf)).Complete? then Some(First(old(buf)).item) else None)
      ensures buf == (if First(old(buf)).Complete? then old(buf)[First(old(buf)).used..] else old(buf))
      ensures |buf| <= |old(buf)| && (item.Some? ==> |buf| < |old(buf)|)
    {
      var kind := V.Get(buf);
      if kind.None? { return None; }
      var len := V.Get(buf[kind.value.used..]);
      if len.None? { return None; }
      var at := kind.value.used + len.value.used;
      if |buf| - at < len.value.value { return None; }
      var end := at + len.value.value;
      var value := buf[at..end];
      buf := buf[end..];
      if kind.value.value == ADDRESS_ASSIGN {
        var list := ParseAddressAssign(value);
        return Some(if list.None? then Malformed else Good(AddressAssign(list.value)));
      }
      return Some(Interpret(kind.value.value, value));
    }

    /** Take capsules until the buffer holds no complete one. */
    method Drain() returns (items: seq<Item>)
      modifies this`buf
      ensures items == ParseAll(old(buf)).items && buf == ParseAll(old(buf)).rest
    {
      items := [];
      while true
        invariant ParseAll(old(buf)) == Stream(items + ParseAll(buf).items, ParseAll(buf).rest)
        decreases |buf|
      {
        var item := Next();
        if item.None? { break; }
        ConcatAssociative(items, [item.value], ParseAll(buf).items);
        items := items + [item.value];
      }
      assert items + [] == items;
    }
  }

  // ---- runs ----------------------------------------------------------------------------------

  datatype Op = Push(data: seq<Byte>) | Take

  /** The buffer, the results returned so far and the bytes pushed so far. */
  datatype State = State(buf: seq<Byte>, taken: seq<Item>, pushed: seq<Byte>)

  function Step(s: State, op: Op): State {
    match op
    case Push(data) => State(AfterPush(s.buf, data), s.taken, s.pushed + data)
    case Take =>
      var p := First(s.buf);
      if p.Incomplete? then s else State(s.buf[p.used..], s.taken + [p.item], s.pushed)
  }

  predicate Fits(s: State, op: Op) {
    op.Push? ==> |s.buf| + |op.data| <= MAX_BUFFER
  }

  ghost function Run(ops: seq<Op>): State {
    if ops == [] then State([], [], []) else Step(Run(ops[..|ops| - 1]), ops[|ops| - 1])
  }

  ghost predicate AllFit(ops: seq<Op>) {
    forall i :: 0 <= i < |ops| ==> Fits(Run(ops[..i]), ops[i])
  }

  /** What has been returned and what the buffer still holds are together the whole stream. */
  ghost predicate Conserves(s: State) {
    var all, held := ParseAll(s.pushed), ParseAll(s.buf);
    s.taken + held.items == all.items && held.rest == all.rest
  }

  lemma PushConserves(s: State, data: seq<Byte>)
    requires Conserves(s) && Fits(s, Push(data))
    ensures Conserves(Step(s, Push(data)))
  {
    var held := ParseAll(s.buf);
    ParseAllAppend(s.pushed, data);
    ParseAllAppend(s.buf, data);
    ConcatAssociative(s.taken, held.items, ParseAll(held.rest + data).items);
  }

  /** An overflowing push breaks it at once: the buffer is empty, but the stream goes on with a capsule
      or with more bytes than the cap. */
  lemma OverflowBreaks(s: State, data: seq<Byte>)
    requires Conserves(s) && !Fits(s, Push(data))
    ensures !Conserves(Step(s, Push(data)))
  {
    var all := ParseAll(s.pushed);
    var next := ParseAll(all.rest + data);
    assert ParseAll(s.pushed + data) == Stream(all.items + next.items, next.rest) by { ParseAllAppend(s.pushed, data); }
    var t := Step(s, Push(data));
    assert ParseAll(t.buf) == Stream([], []);
    assert ParseAll(s.buf).items == [] && next.items == [] ==> next.rest == s.buf + data;
  }

  lemma TakeConserves(s: State)
    requires Conserves(s)
    ensures Conserves(Step(s, Take))
  {
    var p := First(s.buf);
    if p.Complete? {
      ConcatAssociative(s.taken, [p.item], ParseAll(s.buf[p.used..]).items);
    }
  }

  lemma {:induction false} AlwaysConserves(ops: seq<Op>)
    requires AllFit(ops)
    ensures Conserves(Run(ops))
    decreases |ops|
  {
    if ops != [] {
      var n := |ops| - 1;
      FitPrefix(ops, n);
      AlwaysConserves(ops[..n]);
      match ops[n]
      case Push(data) => PushConserves(Run(ops[..n]), data);
      case Take => TakeConserves(Run(ops[..n]));
    }
  }

  /** The cap is the exact condition: every push fits if and only if after every call the results
      returned and the buffer make up the stream pushed. */
  lemma ConservesExactly(ops: seq<Op>)
    ensures AllFit(ops) <==> forall i :: 0 <= i <= |ops| ==> Conserves(Run(ops[..i]))
  {
    if AllFit(ops) {
      forall i | 0 <= i <= |ops| ensures Conserves(Run(ops[..i])) {
        FitPrefix(ops, i);
        AlwaysConserves(ops[..i]);
      }
    } else {
      var i :| 0 <= i < |ops| && !Fits(Run(ops[..i]), ops[i]);
      if Conserves(Run(ops[..i])) {
        assert ops[..i + 1][..i] == ops[..i];
        assert Run(ops[..i + 1]) == Step(Run(ops[..i]), ops[i]);
        OverflowBreaks(Run(ops[..i]), ops[i].data);
        assert !Conserves(Run(ops[..i + 1]));
      }
    }
  }

  lemma FitPrefix(ops: seq<Op>, n: nat)
    requires AllFit(ops) && n <= |ops|
    ensures AllFit(ops[..n])
    ensures n < |ops| ==> Fits(Run(ops[..n]), ops[n])
  {
    forall i | 0 <= i < n
      ensures Fits(Run(ops[..n][..i]), ops[..n][i])
    {
      assert ops[..n][..i] == ops[..i];
    }
  }

  /** Chunking invariance: however a stream is cut into pushes and however `next` calls are placed
      between them, the results are in order a prefix of those of parsing the whole stream at once,
      and all of them once `next` finds nothing; stopping early, as after a malformed capsule, only
      postpones results. */
  lemma ChunkingInvariant(ops: seq<Op>)
    requires AllFit(ops)
    ensures var s := Run(ops);
            var all := ParseAll(s.pushed);
            && s.taken <= all.items
            && (s.taken == all.items <==> First(s.buf) == Incomplete)
            && (First(s.buf) == Incomplete ==> s.buf == all.rest)
  {
    AlwaysConserves(ops);
  }

  /** The buffer never exceeds its cap, overflowing pushes included. */
  lemma {:induction false} BufferBounded(ops: seq<Op>)
    ensures |Run(ops).buf| <= MAX_BUFFER
    decreases |ops|
  {
    if ops != [] {
      BufferBounded(ops[..|ops| - 1]);
    }
  }

  /** Without the cap the invariance is lost: an overflowing push loses the capsule it completes. */
  lemma OverflowLosesCapsule(data: seq<Byte>)
    requires |data| == MAX_BUFFER
    ensures var first := Encode(DATAGRAM, data);
            && Run([Push(first)]).taken == [] && Run([Push(first)]).buf == []
            && First(first) == Complete(Good(Datagram(data)), |first|)
  {
    var first := Encode(DATAGRAM, data);
    RoundTrip(DATAGRAM, data, []);
    assert first + [] == first;
    assert [Push(first)][..0] == [];
  }
}
