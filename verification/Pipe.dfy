/** The in-memory pipe: a rendezvous of serialised writers and any number of readers, with close and
    deadlines, as a state machine over the steps of its goroutines. */
module Pipe {
  import opened Bytes

  type Id = nat

  datatype Err = ClosedPipe | Eof | Deadline | Other(code: nat)

  /** The first of the errors stored, if any. */
  function Earliest(errs: seq<Err>): Option<Err> {
    if errs == [] then None else Some(errs[0])
  }

  /** An error stored at most once; `stored` are the errors offered so far. */
  class OnceError {
    var err: Option<Err>
    ghost var stored: seq<Err>

    ghost predicate Valid()
      reads this
    {
      err == Earliest(stored)
    }

    constructor ()
      ensures Valid() && stored == []
    {
      err, stored := None, [];
    }

    method Store(e: Err)
      requires Valid()
      modifies this
      ensures Valid() && stored == old(stored) + [e]
    {
      stored := stored + [e];
      if err.Some? { return; }
      err := Some(e);
    }

    /** Loading gives the earliest error, however many were stored. */
    method Load() returns (r: Option<Err>)
      requires Valid()
      ensures r == Earliest(stored)
    {
      r := err;
    }
  }

  function Stored(slot: Option<Err>, e: Err): Option<Err> {
    if slot.Some? then slot else Some(e)
  }

  /** A reader waits in its second select, or holds the writer's slice and is about to report. */
  datatype Reader = Selecting(cap: nat) | Holding(cap: nat, slice: seq<Byte>)

  /** A writer waits for the mutex, waits in its select with `n` bytes of `data` consumed, or has handed
      its slice over and waits for the count. */
  datatype Writer = Locking(data: seq<Byte>) | Offering(data: seq<Byte>, n: nat, first: bool) | Awaiting(data: seq<Byte>, n: nat)

  datatype ReadResult = ReadResult(data: seq<Byte>, err: Option<Err>)
  datatype WriteResult = WriteResult(data: seq<Byte>, n: nat, err: Option<Err>)

  /** The closing channels and the stored errors. */
  datatype Ending = Ending(done: bool, rerr: Option<Err>, werr: Option<Err>, readExpired: bool, writeExpired: bool)

  /** `received` and `written` are the results returned, in order. */
  datatype State = State(
    end: Ending, mutex: Option<Id>, readers: map<Id, Reader>, writers: map<Id, Writer>,
    received: seq<ReadResult>, written: seq<WriteResult>)

  const INITIAL := State(Ending(false, None, None, false, false), None, map[], map[], [], [])

  function ReadCloseError(c: Ending): Err {
    if c.rerr.None? && c.werr.Some? then c.werr.value else ClosedPipe
  }

  function WriteCloseError(c: Ending): Err {
    if c.werr.None? && c.rerr.Some? then c.rerr.value else ClosedPipe
  }

  /** What a select among the closing channels returns; it takes any one that is ready, and `viaDone` is
      its pick. */
  function ReadEnds(c: Ending, viaDone: bool): Option<Err> {
    if viaDone && c.done then Some(ReadCloseError(c)) else if !viaDone && c.readExpired then Some(Deadline) else None
  }

  function WriteEnds(c: Ending, viaDone: bool): Option<Err> {
    if viaDone && c.done then Some(WriteCloseError(c)) else if !viaDone && c.writeExpired then Some(Deadline) else None
  }

  datatype Event =
    | StoreReadError(err: Err) | StoreWriteError(err: Err) | CloseDone | SetDeadlines(read: bool, write: bool)
    | StartRead(id: Id, cap: nat, viaDone: bool) | AbortRead(id: Id, viaDone: bool)
    | StartWrite(id: Id, data: seq<Byte>, viaDone: bool) | Lock(id: Id)
    | HandOver(w: Id, r: Id) | Count(w: Id, r: Id)
    | FinishWrite(id: Id) | AbortWrite(id: Id, viaDone: bool)

  /** Closing a side stores its error and then closes the channel; deadlines may change at any time. */
  function EndingStep(c: Ending, e: Event): Ending {
    match e
    case StoreReadError(err) => c.(rerr := Stored(c.rerr, err))
    case StoreWriteError(err) => c.(werr := Stored(c.werr, err))
    case CloseDone => if c.rerr.None? && c.werr.None? then c else c.(done := true)
    case SetDeadlines(read, write) => c.(readExpired := read, writeExpired := write)
    case _ => c
  }

  function EndRead(s: State, id: Id, err: Option<Err>): State {
    s.(readers := s.readers - {id}, received := s.received + [ReadResult([], err)])
  }

  function StartReading(s: State, id: Id, cap: nat, viaDone: bool): State {
    if id in s.readers then s
    else if !s.end.done && !s.end.readExpired then s.(readers := s.readers[id := Selecting(cap)])
    else if ReadEnds(s.end, viaDone).None? then s
    else EndRead(s, id, ReadEnds(s.end, viaDone))
  }

  function AbortReading(s: State, id: Id, viaDone: bool): State {
    if id !in s.readers || !s.readers[id].Selecting? || ReadEnds(s.end, viaDone).None? then s
    else EndRead(s, id, ReadEnds(s.end, viaDone))
  }

  function StartWriting(s: State, id: Id, data: seq<Byte>, viaDone: bool): State {
    if id in s.writers then s
    else if !s.end.done && !s.end.writeExpired then s.(writers := s.writers[id := Locking(data)])
    else if WriteEnds(s.end, viaDone).None? then s
    else s.(written := s.written + [WriteResult(data, 0, WriteEnds(s.end, viaDone))])
  }

  function LockStep(s: State, id: Id): State {
    if id !in s.writers || !s.writers[id].Locking? || s.mutex.Some? then s
    else s.(mutex := Some(id), writers := s.writers[id := Offering(s.writers[id].data, 0, true)])
  }

  /** The loop condition of a write: once, and then while bytes are left. */
  predicate Continues(w: Writer) {
    w.Offering? && (w.first || w.n < |w.data|)
  }

  function HandOverStep(s: State, w: Id, r: Id): State {
    if w !in s.writers || r !in s.readers || !s.readers[r].Selecting? || !Continues(s.writers[w]) then s
    else
      var o := s.writers[w];
      s.(writers := s.writers[w := Awaiting(o.data, o.n)],
         readers := s.readers[r := Holding(s.readers[r].cap, if o.n <= |o.data| then o.data[o.n..] else [])])
  }

  /** The reader copies what fits and reports the count. */
  function Copied(h: Reader): seq<Byte>
    requires h.Holding?
  {
    if h.cap < |h.slice| then h.slice[..h.cap] else h.slice
  }

  function CountStep(s: State, w: Id, r: Id): State {
    if w !in s.writers || !s.writers[w].Awaiting? || r !in s.readers || !s.readers[r].Holding? then s
    else
      var a, got := s.writers[w], Copied(s.readers[r]);
      s.(writers := s.writers[w := Offering(a.data, a.n + |got|, false)], readers := s.readers - {r},
         received := s.received + [ReadResult(got, None)])
  }

  function EndWrite(s: State, id: Id, err: Option<Err>): State
    requires id in s.writers && s.writers[id].Offering?
  {
    s.(mutex := None, writers := s.writers - {id},
       written := s.written + [WriteResult(s.writers[id].data, s.writers[id].n, err)])
  }

  function FinishWriting(s: State, id: Id): State {
    if id !in s.writers || !s.writers[id].Offering? || Continues(s.writers[id]) then s else EndWrite(s, id, None)
  }

  function AbortWriting(s: State, id: Id, viaDone: bool): State {
    if id !in s.writers || !Continues(s.writers[id]) || WriteEnds(s.end, viaDone).None? then s
    else EndWrite(s, id, WriteEnds(s.end, viaDone))
  }

  /** One step of one goroutine; an event that is not enabled changes nothing. */
  function Next(s: State, e: Event): State {
    match e
    case StartRead(id, cap, viaDone) => StartReading(s, id, cap, viaDone)
    case AbortRead(id, viaDone) => AbortReading(s, id, viaDone)
    case StartWrite(id, data, viaDone) => StartWriting(s, id, data, viaDone)
    case Lock(id) => LockStep(s, id)
    case HandOver(w, r) => HandOverStep(s, w, r)
    case Count(w, r) => CountStep(s, w, r)
    case FinishWrite(id) => FinishWriting(s, id)
    case AbortWrite(id, viaDone) => AbortWriting(s, id, viaDone)
    case _ => s.(end := EndingStep(s.end, e))
  }

  ghost predicate StepsTo(s: State, e: Event, t: State) {
    t == Next(s, e)
  }

  ghost predicate IsRun(states: seq<State>, events: seq<Event>) {
    && |states| == |events| + 1 && states[0] == INITIAL
    && forall i :: 0 <= i < |events| ==> StepsTo(states[i], events[i], states[i + 1])
  }

  // ---- the invariant -------------------------------------------------------------------------

  /** The bytes the returned reads delivered, in order. */
  function Delivered(rs: seq<ReadResult>): seq<Byte> {
    if rs == [] then [] else Delivered(rs[..|rs| - 1]) + rs[|rs| - 1].data
  }

  function Prefix(data: seq<Byte>, n: nat): seq<Byte> {
    if n <= |data| then data[..n] else data
  }

  /** The bytes the returned writes report consumed, in order. */
  function Consumed(ws: seq<WriteResult>): seq<Byte> {
    if ws == [] then [] else Consumed(ws[..|ws| - 1]) + Prefix(ws[|ws| - 1].data, ws[|ws| - 1].n)
  }

  /** A finished write reports a prefix of its data, all of it unless it returns an error. */
  ghost predicate Honest(ws: seq<WriteResult>) {
    forall i :: 0 <= i < |ws| ==> ws[i].n <= |ws[i].data| && (ws[i].err.None? ==> ws[i].n == |ws[i].data|)
  }

  /** The bytes the mutex holder has had consumed so far. */
  function InProgress(s: State): seq<Byte> {
    if s.mutex.None? || s.mutex.value !in s.writers || s.writers[s.mutex.value].Locking? then []
    else Prefix(s.writers[s.mutex.value].data, s.writers[s.mutex.value].n)
  }

  /** Exactly the mutex holder is past the mutex, with a count within its data. */
  ghost predicate Serialised(s: State) {
    && (s.mutex.Some? ==> s.mutex.value in s.writers)
    && forall w :: w in s.writers ==>
         (!s.writers[w].Locking? <==> s.mutex == Some(w)) && (!s.writers[w].Locking? ==> s.writers[w].n <= |s.writers[w].data|)
  }

  /** What the current exchange carries, if there is one. */
  function Offer(s: State): Option<seq<Byte>> {
    if s.mutex.None? || s.mutex.value !in s.writers then None
    else
      var w := s.writers[s.mutex.value];
      if w.Awaiting? && w.n <= |w.data| then Some(w.data[w.n..]) else None
  }

  /** Whoever holds a slice holds the mutex holder's, and holds it alone. */
  ghost predicate OneExchange(s: State) {
    && (forall r :: r in s.readers && s.readers[r].Holding? ==> Offer(s) == Some(s.readers[r].slice))
    && (forall q, r :: q in s.readers && r in s.readers && s.readers[q].Holding? && s.readers[r].Holding? ==> q == r)
  }

  /** A writer awaiting its count has a reader about to send it. */
  ghost predicate Answered(s: State) {
    Offer(s).Some? ==> exists r :: r in s.readers && s.readers[r].Holding?
  }

  ghost predicate Conserved(s: State) {
    Delivered(s.received) == Consumed(s.written) + InProgress(s)
  }

  ghost predicate Closing(c: Ending) {
    c.done ==> c.rerr.Some? || c.werr.Some?
  }

  ghost predicate Inv(s: State) {
    Serialised(s) && OneExchange(s) && Answered(s) && Honest(s.written) && Conserved(s) && Closing(s.end)
  }

  lemma ConsumedSnoc(ws: seq<WriteResult>, w: WriteResult)
    ensures Consumed(ws + [w]) == Consumed(ws) + Prefix(w.data, w.n)
  {
    assert (ws + [w])[..|ws|] == ws;
  }

  lemma DeliveredSnoc(rs: seq<ReadResult>, r: ReadResult)
    ensures Delivered(rs + [r]) == Delivered(rs) + r.data
  {
    assert (rs + [r])[..|rs|] == rs;
  }

  lemma EndReadKeeps(s: State, id: Id, err: Option<Err>)
    requires Inv(s) && (id in s.readers ==> s.readers[id].Selecting?)
    ensures Inv(EndRead(s, id, err))
  {
    var t := EndRead(s, id, err);
    DeliveredSnoc(s.received, ReadResult([], err));
    assert Delivered(s.received) + [] == Delivered(s.received);
    assert Answered(t) by {
      if Offer(s).Some? {
        var r :| r in s.readers && s.readers[r].Holding?;
        assert r in t.readers;
      }
    }
  }

  lemma StartReadingKeeps(s: State, id: Id, cap: nat, viaDone: bool)
    requires Inv(s)
    ensures Inv(StartReading(s, id, cap, viaDone))
  {
    var t := StartReading(s, id, cap, viaDone);
    if !s.end.done && !s.end.readExpired && id !in s.readers {
      assert Answered(t) by {
        if Offer(s).Some? {
          var r :| r in s.readers && s.readers[r].Holding?;
          assert r in t.readers;
        }
      }
    } else if t != s {
      EndReadKeeps(s, id, ReadEnds(s.end, viaDone));
    }
  }

  lemma RefusedConsumes(s: State, data: seq<Byte>, viaDone: bool)
    ensures Consumed(s.written + [WriteResult(data, 0, WriteEnds(s.end, viaDone))]) == Consumed(s.written)
  {
    ConsumedSnoc(s.written, WriteResult(data, 0, WriteEnds(s.end, viaDone)));
    assert Prefix(data, 0) == [] && Consumed(s.written) + [] == Consumed(s.written);
  }

  lemma RefusedKeeps(s: State, data: seq<Byte>, viaDone: bool)
    requires Inv(s) && WriteEnds(s.end, viaDone).Some?
    ensures Inv(s.(written := s.written + [WriteResult(data, 0, WriteEnds(s.end, viaDone))]))
  {
    var t := s.(written := s.written + [WriteResult(data, 0, WriteEnds(s.end, viaDone))]);
    assert Conserved(t) by {
      RefusedConsumes(s, data, viaDone);
      assert InProgress(t) == InProgress(s);
    }
    assert Offer(t) == Offer(s);
    assert Serialised(t) && OneExchange(t) && Answered(t) && Honest(t.written);
  }

  lemma QueuedKeeps(s: State, id: Id, data: seq<Byte>)
    requires Inv(s) && id !in s.writers
    ensures Inv(s.(writers := s.writers[id := Locking(data)]))
  {
    var t := s.(writers := s.writers[id := Locking(data)]);
    assert Offer(t) == Offer(s) && InProgress(t) == InProgress(s);
    assert Serialised(t) && OneExchange(t) && Answered(t) && Conserved(t);
  }

  lemma StartWritingKeeps(s: State, id: Id, data: seq<Byte>, viaDone: bool)
    requires Inv(s)
    ensures Inv(StartWriting(s, id, data, viaDone))
  {
    if id !in s.writers {
      if !s.end.done && !s.end.writeExpired {
        QueuedKeeps(s, id, data);
      } else if WriteEnds(s.end, viaDone).Some? {
        RefusedKeeps(s, data, viaDone);
      }
    }
  }

  lemma LockKeeps(s: State, id: Id)
    requires Inv(s)
    ensures Inv(LockStep(s, id))
  {
    var t := LockStep(s, id);
    assert InProgress(t) == InProgress(s) && Offer(t) == Offer(s);
  }

  lemma HandOverKeeps(s: State, w: Id, r: Id)
    requires Inv(s)
    ensures Inv(HandOverStep(s, w, r))
  {
    var t := HandOverStep(s, w, r);
    if t != s {
      assert s.mutex == Some(w) && Offer(s) == None;
      assert Offer(t) == Some(t.readers[r].slice);
      assert InProgress(t) == InProgress(s);
    }
  }

  /** A count moves the bytes the reader took from the writer's slice to its consumed prefix. */
  lemma CountConserves(s: State, w: Id, r: Id)
    requires Inv(s)
    ensures Conserved(CountStep(s, w, r))
  {
    var t := CountStep(s, w, r);
    if w in s.writers && s.writers[w].Awaiting? && r in s.readers && s.readers[r].Holding? {
      var a, got := s.writers[w], Copied(s.readers[r]);
      assert s.mutex == Some(w) && Offer(s) == Some(a.data[a.n..]);
      DeliveredSnoc(s.received, ReadResult(got, None));
      assert InProgress(s) == a.data[..a.n];
      assert a.data[..a.n] + got == a.data[..a.n + |got|];
      ConcatAssociative(Consumed(s.written), a.data[..a.n], got);
    }
  }

  lemma CountKeeps(s: State, w: Id, r: Id)
    requires Inv(s)
    ensures Inv(CountStep(s, w, r))
  {
    assert Conserved(CountStep(s, w, r)) by { CountConserves(s, w, r); }
    var t := CountStep(s, w, r);
    if w in s.writers && s.writers[w].Awaiting? && r in s.readers && s.readers[r].Holding? {
      assert s.mutex == Some(w) && Offer(t) == None;
      assert OneExchange(t);
    }
  }

  lemma EndWriteKeeps(s: State, id: Id, err: Option<Err>)
    requires Inv(s) && id in s.writers && s.writers[id].Offering?
    requires err.None? ==> s.writers[id].n == |s.writers[id].data|
    ensures Inv(EndWrite(s, id, err))
  {
    var o, t := s.writers[id], EndWrite(s, id, err);
    ConsumedSnoc(s.written, WriteResult(o.data, o.n, err));
    assert s.mutex == Some(id) && InProgress(t) == [] && Offer(s) == Offer(t) == None;
    assert Consumed(t.written) + [] == Consumed(t.written);
  }

  lemma EndingKeeps(s: State, c: Ending)
    requires Inv(s) && Closing(c)
    ensures Inv(s.(end := c))
  {
    var t := s.(end := c);
    assert InProgress(t) == InProgress(s) && Offer(t) == Offer(s);
  }

  lemma NextKeeps(s: State, e: Event)
    requires Inv(s)
    ensures Inv(Next(s, e))
  {
    match e
    case StartRead(id, cap, viaDone) => StartReadingKeeps(s, id, cap, viaDone);
    case AbortRead(id, viaDone) => if Next(s, e) != s { EndReadKeeps(s, id, ReadEnds(s.end, viaDone)); }
    case StartWrite(id, data, viaDone) => StartWritingKeeps(s, id, data, viaDone);
    case Lock(id) => LockKeeps(s, id);
    case HandOver(w, r) => HandOverKeeps(s, w, r);
    case Count(w, r) => CountKeeps(s, w, r);
    case FinishWrite(id) => if Next(s, e) != s { EndWriteKeeps(s, id, None); }
    case AbortWrite(id, viaDone) => if Next(s, e) != s { EndWriteKeeps(s, id, WriteEnds(s.end, viaDone)); }
    case _ => EndingKeeps(s, EndingStep(s.end, e));
  }

  lemma {:induction false} InvAlways(states: seq<State>, events: seq<Event>, n: nat)
    requires IsRun(states, events) && n < |states|
    ensures Inv(states[n])
  {
    if n > 0 {
      InvAlways(states, events, n - 1);
      assert StepsTo(states[n - 1], events[n - 1], states[n]);
      NextKeeps(states[n - 1], events[n - 1]);
    }
  }

  // ---- theorems ------------------------------------------------------------------------------

  /** In every interleaving at most one exchange is in flight, its reader holds the current write's own
      remaining bytes, and a writer waiting for a count always has that reader. */
  lemma AtMostOneExchange(states: seq<State>, events: seq<Event>, n: nat)
    requires IsRun(states, events) && n < |states|
    ensures OneExchange(states[n]) && Answered(states[n]) && Serialised(states[n])
  {
    InvAlways(states, events, n);
  }

  /** In every interleaving the bytes reads returned are, in order, the prefixes that writes report
      consumed and then what the current write has had consumed; a write without an error had everything
      consumed. */
  lemma BytesAreConserved(states: seq<State>, events: seq<Event>, n: nat)
    requires IsRun(states, events) && n < |states|
    ensures var s := states[n];
            && Honest(s.written)
            && Delivered(s.received) == Consumed(s.written) + InProgress(s)
            && (s.mutex.None? ==> Delivered(s.received) == Consumed(s.written))
  {
    InvAlways(states, events, n);
    assert Consumed(states[n].written) + [] == Consumed(states[n].written);
  }

  // ---- what operations do --------------------------------------------------------------------

  function Min(a: nat, b: nat): nat {
    if a < b then a else b
  }

  /** In every run, an exchange gives the reader the first bytes the writer still has to offer, as many as
      its buffer has room for, and the writer goes on behind them. */
  lemma ExchangeMoves(states: seq<State>, events: seq<Event>, n: nat)
    requires IsRun(states, events) && n < |events| && events[n].Count?
    requires events[n].w in states[n].writers && states[n].writers[events[n].w].Awaiting?
    requires events[n].r in states[n].readers && states[n].readers[events[n].r].Holding?
    ensures var s, t, w, r := states[n], states[n + 1], events[n].w, events[n].r;
            var a, cap := s.writers[w], s.readers[r].cap;
            && a.n <= |a.data|
            && var m := Min(cap, |a.data| - a.n);
               && t.received == s.received + [ReadResult(a.data[a.n..a.n + m], None)]
               && t.writers == s.writers[w := Offering(a.data, a.n + m, false)]
               && t.readers == s.readers - {r} && t.mutex == s.mutex && t.written == s.written && t.end == s.end
  {
    var s, w, r := states[n], events[n].w, events[n].r;
    assert StepsTo(s, events[n], states[n + 1]);
    var a, h := s.writers[w], s.readers[r];
    assert Serialised(s) && OneExchange(s) by { InvAlways(states, events, n); }
    assert h.slice == a.data[a.n..];
    var m := Min(h.cap, |a.data| - a.n);
    assert Copied(h) == a.data[a.n..a.n + m];
  }

  /** The state after an exchange of m bytes. */
  function Exchanged(s: State, w: Id, r: Id, m: nat): State
    requires w in s.writers && s.writers[w].Offering? && s.writers[w].n + m <= |s.writers[w].data|
  {
    var o := s.writers[w];
    s.(writers := s.writers[w := Offering(o.data, o.n + m, false)], readers := s.readers - {r},
       received := s.received + [ReadResult(o.data[o.n..o.n + m], None)])
  }

  /** A waiting reader and a writer with something to offer can exchange: after both steps the reader has
      its bytes, as many as fit, and the writer goes on behind them. */
  lemma ExchangeSucceeds(s: State, w: Id, r: Id)
    requires Serialised(s) && w in s.writers && Continues(s.writers[w]) && r in s.readers && s.readers[r].Selecting?
    ensures var o := s.writers[w];
            && o.n <= |o.data|
            && Next(Next(s, HandOver(w, r)), Count(w, r)) == Exchanged(s, w, r, Min(s.readers[r].cap, |o.data| - o.n))
  {
    var o, cap := s.writers[w], s.readers[r].cap;
    var m := Min(cap, |o.data| - o.n);
    var h := HandOverStep(s, w, r);
    assert Copied(h.readers[r]) == o.data[o.n..o.n + m];
    var t, e := CountStep(h, w, r), Exchanged(s, w, r, m);
    assert t.writers == e.writers;
    assert t.readers == e.readers;
  }

  /** A writer whose bytes are all consumed returns them all, without an error. */
  lemma WriteFinishes(s: State, w: Id)
    requires w in s.writers && s.writers[w].Offering? && !s.writers[w].first && s.writers[w].n == |s.writers[w].data|
    ensures var o := s.writers[w];
            Next(s, FinishWrite(w)) ==
            s.(mutex := None, writers := s.writers - {w}, written := s.written + [WriteResult(o.data, |o.data|, None)])
  {
  }

  /** On an open pipe with no deadline passed, operations get in: a read waits, a write waits for the mutex,
      and takes it when it is free. */
  lemma OperationsStart(s: State, id: Id, cap: nat, data: seq<Byte>, viaDone: bool)
    requires !s.end.done
    ensures !s.end.readExpired && id !in s.readers ==>
              Next(s, StartRead(id, cap, viaDone)) == s.(readers := s.readers[id := Selecting(cap)])
    ensures !s.end.writeExpired && id !in s.writers ==>
              Next(s, StartWrite(id, data, viaDone)) == s.(writers := s.writers[id := Locking(data)])
    ensures id in s.writers && s.writers[id].Locking? && s.mutex == None ==>
              var t := Next(s, Lock(id));
              && t == s.(mutex := Some(id), writers := s.writers[id := Offering(s.writers[id].data, 0, true)])
              && Continues(t.writers[id])
  {
  }

  /** A write past the mutex and a waiting read. */
  function Met(s: State, w: Id, r: Id, data: seq<Byte>, cap: nat): State {
    s.(mutex := Some(w), writers := s.writers[w := Offering(data, 0, true)], readers := s.readers[r := Selecting(cap)])
  }

  lemma BothGetIn(s: State, w: Id, r: Id, data: seq<Byte>, cap: nat)
    requires !s.end.done && !s.end.readExpired && !s.end.writeExpired && s.mutex == None
    requires w !in s.writers && r !in s.readers
    ensures Next(Next(Next(s, StartWrite(w, data, true)), Lock(w)), StartRead(r, cap, true)) == Met(s, w, r, data, cap)
  {
    var a := Next(s, StartWrite(w, data, true));
    assert a.writers[w := Offering(data, 0, true)] == s.writers[w := Offering(data, 0, true)];
  }

  lemma MetCompletes(s: State, w: Id, r: Id, data: seq<Byte>, cap: nat)
    requires Serialised(s) && s.mutex == None && w !in s.writers && r !in s.readers && |data| <= cap
    ensures Next(Next(Next(Met(s, w, r, data, cap), HandOver(w, r)), Count(w, r)), FinishWrite(w)) ==
            s.(received := s.received + [ReadResult(data, None)], written := s.written + [WriteResult(data, |data|, None)])
  {
    var m := Met(s, w, r, data, cap);
    ExchangeSucceeds(m, w, r);
    var e := Exchanged(m, w, r, |data|);
    WriteFinishes(e, w);
    assert data[0..|data|] == data;
    assert e.writers - {w} == s.writers && e.readers == s.readers;
  }

  /** From start to finish: on an open pipe with the mutex free, a write and a read with room for it complete
      each other, an empty write included. */
  lemma WriteMeetsRead(s: State, w: Id, r: Id, data: seq<Byte>, cap: nat)
    requires Serialised(s) && !s.end.done && !s.end.readExpired && !s.end.writeExpired && s.mutex == None
    requires w !in s.writers && r !in s.readers && |data| <= cap
    ensures var a := Next(Next(Next(s, StartWrite(w, data, true)), Lock(w)), StartRead(r, cap, true));
            Next(Next(Next(a, HandOver(w, r)), Count(w, r)), FinishWrite(w)) ==
            s.(received := s.received + [ReadResult(data, None)], written := s.written + [WriteResult(data, |data|, None)])
  {
    assert Next(Next(Next(s, StartWrite(w, data, true)), Lock(w)), StartRead(r, cap, true)) == Met(s, w, r, data, cap) by {
      BothGetIn(s, w, r, data, cap);
    }
    MetCompletes(s, w, r, data, cap);
  }

  /** Once the pipe is closed or a deadline has passed, whoever waits can leave: a reader with nothing, a
      writer with what was consumed, releasing the mutex. */
  lemma WaitersLeave(s: State, id: Id, viaDone: bool)
    ensures id in s.readers && s.readers[id].Selecting? && ReadEnds(s.end, viaDone).Some? ==>
              Next(s, AbortRead(id, viaDone)) ==
              s.(readers := s.readers - {id}, received := s.received + [ReadResult([], ReadEnds(s.end, viaDone))])
    ensures id in s.writers && Continues(s.writers[id]) && WriteEnds(s.end, viaDone).Some? ==>
              Next(s, AbortWrite(id, viaDone)) ==
              s.(mutex := None, writers := s.writers - {id},
                 written := s.written + [WriteResult(s.writers[id].data, s.writers[id].n, WriteEnds(s.end, viaDone))])
    ensures s.end.done ==>
              ReadEnds(s.end, true) == Some(ReadCloseError(s.end)) && WriteEnds(s.end, true) == Some(WriteCloseError(s.end))
    ensures s.end.readExpired ==> ReadEnds(s.end, false) == Some(Deadline)
    ensures s.end.writeExpired ==> WriteEnds(s.end, false) == Some(Deadline)
  {
  }

  /** And nobody gets in any more: a new read or write returns at once with that error. */
  lemma NoneGetsIn(s: State, id: Id, cap: nat, data: seq<Byte>, viaDone: bool)
    ensures id !in s.readers && ReadEnds(s.end, viaDone).Some? ==>
              Next(s, StartRead(id, cap, viaDone)) == s.(received := s.received + [ReadResult([], ReadEnds(s.end, viaDone))])
    ensures id !in s.writers && WriteEnds(s.end, viaDone).Some? ==>
              Next(s, StartWrite(id, data, viaDone)) ==
              s.(written := s.written + [WriteResult(data, 0, WriteEnds(s.end, viaDone))])
  {
    assert id !in s.readers ==> s.readers - {id} == s.readers;
  }

  /** Closing a side, in its two steps, closes the pipe with that error unless one was stored before. */
  lemma ClosingCloses(s: State, err: Err)
    ensures var t := Next(Next(s, StoreReadError(err)), CloseDone);
            t.end.done && t.end.rerr == Some(if s.end.rerr.Some? then s.end.rerr.value else err) && t == s.(end := t.end)
    ensures var t := Next(Next(s, StoreWriteError(err)), CloseDone);
            t.end.done && t.end.werr == Some(if s.end.werr.Some? then s.end.werr.value else err) && t == s.(end := t.end)
  {
  }

  /** The close, and the first error stored for each side, stay. */
  ghost predicate Keeps(c: Ending, d: Ending) {
    && (c.rerr.Some? ==> d.rerr == c.rerr) && (c.werr.Some? ==> d.werr == c.werr) && (c.done ==> d.done)
  }

  lemma StepKeepsEnding(s: State, e: Event)
    ensures Keeps(s.end, Next(s, e).end)
  {
  }

  lemma {:induction false} EndingStays(states: seq<State>, events: seq<Event>, i: nat, j: nat)
    requires IsRun(states, events) && i <= j < |states|
    ensures Keeps(states[i].end, states[j].end)
    decreases j
  {
    if i < j {
      EndingStays(states, events, i, j - 1);
      assert StepsTo(states[j - 1], events[j - 1], states[j]);
      assert Keeps(states[j - 1].end, states[j].end) by { StepKeepsEnding(states[j - 1], events[j - 1]); }
    }
  }

  /** The last deadlines set along a run; none has passed before the first. */
  ghost function Deadlines(events: seq<Event>): (bool, bool) {
    if events == [] then (false, false)
    else
      var last := events[|events| - 1];
      if last.SetDeadlines? then (last.read, last.write) else Deadlines(events[..|events| - 1])
  }

  lemma OnlySettingMoves(s: State, e: Event)
    ensures var c, d := s.end, Next(s, e).end;
            (d.readExpired, d.writeExpired) == if e.SetDeadlines? then (e.read, e.write) else (c.readExpired, c.writeExpired)
  {
  }

  /** A deadline has passed exactly if the last setting of it says so, and setting it again revives the side. */
  lemma {:induction false} DeadlinesFollow(states: seq<State>, events: seq<Event>, n: nat)
    requires IsRun(states, events) && n <= |events|
    ensures (states[n].end.readExpired, states[n].end.writeExpired) == Deadlines(events[..n])
  {
    if n > 0 {
      DeadlinesFollow(states, events, n - 1);
      assert events[..n][..n - 1] == events[..n - 1];
      assert StepsTo(states[n - 1], events[n - 1], states[n]);
      OnlySettingMoves(states[n - 1], events[n - 1]);
    }
  }

  /** The errors a side was closed with along a run, in order. */
  ghost function ReadErrors(events: seq<Event>): seq<Err> {
    if events == [] then []
    else
      var last := events[|events| - 1];
      ReadErrors(events[..|events| - 1]) + if last.StoreReadError? then [last.err] else []
  }

  ghost function WriteErrors(events: seq<Event>): seq<Err> {
    if events == [] then []
    else
      var last := events[|events| - 1];
      WriteErrors(events[..|events| - 1]) + if last.StoreWriteError? then [last.err] else []
  }

  lemma EndingOnly(s: State, e: Event)
    ensures Next(s, e).end == EndingStep(s.end, e)
  {
  }

  /** Each slot holds the earliest error its side was closed with. */
  lemma {:induction false} EarliestErrorStays(states: seq<State>, events: seq<Event>, n: nat)
    requires IsRun(states, events) && n < |states|
    ensures states[n].end.rerr == Earliest(ReadErrors(events[..n]))
    ensures states[n].end.werr == Earliest(WriteErrors(events[..n]))
  {
    if n > 0 {
      EarliestErrorStays(states, events, n - 1);
      assert StepsTo(states[n - 1], events[n - 1], states[n]);
      EndingOnly(states[n - 1], events[n - 1]);
      assert events[..n][..n - 1] == events[..n - 1] && events[..n][n - 1] == events[n - 1];
    }
  }

  /** The error for an operation on a closed pipe: the earliest one of the other side while its own side
      was not closed, else only that the pipe is closed. */
  function CloseError(own: seq<Err>, other: seq<Err>): Err {
    if own == [] && other != [] then other[0] else ClosedPipe
  }

  lemma CloseErrors(states: seq<State>, events: seq<Event>, n: nat)
    requires IsRun(states, events) && n < |states| && states[n].end.done
    ensures var c, read, write := states[n].end, ReadErrors(events[..n]), WriteErrors(events[..n]);
            && (read != [] || write != [])
            && ReadCloseError(c) == CloseError(read, write) && WriteCloseError(c) == CloseError(write, read)
  {
    InvAlways(states, events, n);
    EarliestErrorStays(states, events, n);
  }

  /** Once the pipe is closed, a read started at any later moment of any run moves no bytes and reports
      the earliest error the write side was closed with, or that the pipe is closed if the read side
      was closed too; if its deadline has expired it may report that instead. */
  lemma ReadAfterClose(states: seq<State>, events: seq<Event>, i: nat, n: nat)
    requires IsRun(states, events) && i <= n < |events| && states[i].end.done
    requires events[n].StartRead? && events[n].id !in states[n].readers && states[n + 1] != states[n]
    ensures var s, t, read, write := states[n], states[n + 1], ReadErrors(events[..n]), WriteErrors(events[..n]);
            && t == s.(received := t.received) && (read == [] ==> write != [])
            && (t.received == s.received + [ReadResult([], Some(CloseError(read, write)))]
               || (s.end.readExpired && t.received == s.received + [ReadResult([], Some(Deadline))]))
  {
    var s, id := states[n], events[n].id;
    assert s.end.done by { EndingStays(states, events, i, n); }
    assert StepsTo(s, events[n], states[n + 1]);
    assert s.readers - {id} == s.readers;
    CloseErrors(states, events, n);
  }

  /** Likewise a write. */
  lemma WriteAfterClose(states: seq<State>, events: seq<Event>, i: nat, n: nat)
    requires IsRun(states, events) && i <= n < |events| && states[i].end.done
    requires events[n].StartWrite? && events[n].id !in states[n].writers && states[n + 1] != states[n]
    ensures var s, t, data := states[n], states[n + 1], events[n].data;
            var read, write := ReadErrors(events[..n]), WriteErrors(events[..n]);
            && t == s.(written := t.written) && (write == [] ==> read != [])
            && (t.written == s.written + [WriteResult(data, 0, Some(CloseError(write, read)))]
               || (s.end.writeExpired && t.written == s.written + [WriteResult(data, 0, Some(Deadline))]))
  {
    assert states[n].end.done by { EndingStays(states, events, i, n); }
    assert StepsTo(states[n], events[n], states[n + 1]);
    CloseErrors(states, events, n);
  }

  /** The two stored errors are loaded one after the other, with other steps in between; the answer is
      the one at the first load. */
  lemma LoadsNeedNotBeAtomic(states: seq<State>, events: seq<Event>, i: nat, j: nat)
    requires IsRun(states, events) && i <= j < |states| && states[i].end.done
    ensures var c, d := states[i].end, states[j].end;
            && ReadCloseError(c.(werr := d.werr)) == ReadCloseError(c)
            && WriteCloseError(c.(rerr := d.rerr)) == WriteCloseError(c)
  {
    InvAlways(states, events, i);
    EndingStays(states, events, i, j);
  }
}
