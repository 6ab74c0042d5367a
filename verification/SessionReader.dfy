/** The receiving half of an AnyTLS server session: demultiplexing frames into stream pipes. */
module SessionReader {
  import opened Bytes
  import opened Frames

  /** An accepted stream and the bytes offered to its pipe, in order. */
  datatype Accepted = Accepted(sid: U32, offered: seq<Byte>)

  /** `streams` maps a live stream id to its entry in `accepted`. */
  datatype In = In(settings: bool, stopped: bool, streams: map<U32, nat>, accepted: seq<Accepted>)

  const INITIAL := In(false, false, map[], [])

  /** Frames arrive in order; between any two of them the application may close a stream, and the session
      may be closed, as it is when a write of its own fails. */
  datatype Event = Arrive(frame: Frame) | LocalClose(sid: U32) | CloseSession

  ghost predicate Valid(s: In) {
    && (forall sid :: sid in s.streams ==> s.streams[sid] < |s.accepted| && s.accepted[s.streams[sid]].sid == sid)
    && (s.stopped ==> s.streams == map[])
  }

  function Offer(s: In, at: nat, data: seq<Byte>): In
    requires at < |s.accepted|
  {
    s.(accepted := s.accepted[at := s.accepted[at].(offered := s.accepted[at].offered + data)])
  }

  /** The receive loop has returned: the session and all its streams are closed. */
  function Stop(s: In): In {
    s.(stopped := true, streams := map[])
  }

  function Step(s: In, e: Event): (r: In)
    requires Valid(s)
    ensures Valid(r)
  {
    if s.stopped then s
    else match e
      case LocalClose(sid) => s.(streams := s.streams - {sid})
      case CloseSession => Stop(s)
      case Arrive(Frame(cmd, sid, data)) =>
        if cmd == PSH then
          if data != [] && sid in s.streams then Offer(s, s.streams[sid], data) else s
        else if cmd == SYN then
          if !s.settings then Stop(s)
          else if sid in s.streams then s
          else s.(streams := s.streams[sid := |s.accepted|], accepted := s.accepted + [Accepted(sid, [])])
        else if cmd == SYNACK then
          if data != [] then s.(streams := s.streams - {sid}) else s
        else if cmd == FIN then s.(streams := s.streams - {sid})
        else if cmd == SETTINGS then (if data != [] then s.(settings := true) else s)
        else if cmd == ALERT then (if data != [] then Stop(s) else s)
        else s
  }

  ghost function Run(events: seq<Event>): (s: In)
    ensures Valid(s)
  {
    if events == [] then INITIAL else Step(Run(events[..|events| - 1]), events[|events| - 1])
  }

  // ---- what one stream sees -----------------------------------------------------------------

  /** The reference receiver of a single stream id: the bytes of each of its openings, until the session
      is closed. */
  datatype One = One(live: bool, openings: seq<seq<Byte>>, closed: bool)

  predicate Concerns(e: Event, sid: U32) {
    match e
    case LocalClose(id) => id == sid
    case CloseSession => true
    case Arrive(f) => f.sid == sid && (f.cmd == SYN || f.cmd == PSH || f.cmd == FIN || f.cmd == SYNACK)
  }

  function OneStep(o: One, e: Event): One {
    if o.closed then o
    else match e
    case LocalClose(_) => o.(live := false)
    case CloseSession => o.(live := false, closed := true)
    case Arrive(f) =>
      if f.cmd == SYN then (if o.live then o else One(true, o.openings + [[]], false))
      else if f.cmd == PSH then
        if o.live && o.openings != [] then
          var last := |o.openings| - 1;
          o.(openings := o.openings[last := o.openings[last] + f.data])
        else o
      else if f.cmd == FIN || (f.cmd == SYNACK && f.data != []) then o.(live := false)
      else o
  }

  /** The events about one stream id, in order. */
  ghost function Project(events: seq<Event>, sid: U32): seq<Event> {
    if events == [] then []
    else
      var last := events[|events| - 1];
      Project(events[..|events| - 1], sid) + if Concerns(last, sid) then [last] else []
  }

  ghost function OneRun(events: seq<Event>): One {
    if events == [] then One(false, [], false) else OneStep(OneRun(events[..|events| - 1]), events[|events| - 1])
  }

  /** The bytes offered to each opening of a stream id, in order of opening. */
  function Openings(accepted: seq<Accepted>, sid: U32): seq<seq<Byte>> {
    if accepted == [] then []
    else
      var last := accepted[|accepted| - 1];
      Openings(accepted[..|accepted| - 1], sid) + if last.sid == sid then [last.offered] else []
  }

  lemma OpeningsSnoc(accepted: seq<Accepted>, a: Accepted, sid: U32)
    ensures Openings(accepted + [a], sid) == Openings(accepted, sid) + if a.sid == sid then [a.offered] else []
  {
    assert (accepted + [a])[..|accepted|] == accepted;
  }

  /** Offering bytes to the latest opening of a stream extends that opening and no other stream. */
  lemma {:induction false} OpeningsOffer(accepted: seq<Accepted>, at: nat, data: seq<Byte>, sid: U32)
    requires at < |accepted|
    requires forall k :: at < k < |accepted| ==> accepted[k].sid != accepted[at].sid
    ensures var a := accepted[at];
            var next := Openings(accepted[at := a.(offered := a.offered + data)], sid);
            var was := Openings(accepted, sid);
            if a.sid != sid then next == was
            else was != [] && next == was[|was| - 1 := was[|was| - 1] + data]
    decreases |accepted|
  {
    var n, a := |accepted| - 1, accepted[at];
    var updated := accepted[at := a.(offered := a.offered + data)];
    if at < n {
      assert updated[..n] == accepted[..n][at := a.(offered := a.offered + data)];
      OpeningsOffer(accepted[..n], at, data, sid);
    } else {
      assert updated[..n] == accepted[..n];
    }
  }

  /** Live streams are the latest openings of their ids. */
  ghost predicate Latest(s: In) {
    forall sid, k :: sid in s.streams && s.streams[sid] < k < |s.accepted| ==> s.accepted[k].sid != sid
  }

  lemma StepLatest(s: In, e: Event)
    requires Valid(s) && Latest(s)
    ensures Latest(Step(s, e))
  {
    var r := Step(s, e);
    forall sid, k | sid in r.streams && r.streams[sid] < k < |r.accepted|
      ensures r.accepted[k].sid != sid
    {
      if sid in s.streams {
        assert r.streams[sid] == s.streams[sid] && k < |r.accepted|;
        if k < |s.accepted| {
          assert r.accepted[k].sid == s.accepted[k].sid;
        }
      }
    }
  }

  lemma {:induction false} AlwaysLatest(events: seq<Event>)
    ensures Latest(Run(events))
    decreases |events|
  {
    if events != [] {
      AlwaysLatest(events[..|events| - 1]);
      StepLatest(Run(events[..|events| - 1]), events[|events| - 1]);
    }
  }

  ghost predicate Matches(s: In, o: One, sid: U32) {
    && Openings(s.accepted, sid) == o.openings
    && (sid in s.streams <==> o.live)
    && (o.live ==> o.openings != [])
    && (s.stopped <==> o.closed)
  }

  /** A frame that makes the receiver give up: a SYN before the settings, or an alert. */
  predicate Errs(s: In, e: Event) {
    !s.stopped && e.Arrive? && ((e.frame.cmd == SYN && !s.settings) || (e.frame.cmd == ALERT && e.frame.data != []))
  }

  ghost predicate WellBehaved(events: seq<Event>) {
    forall i :: 0 <= i < |events| ==> !Errs(Run(events[..i]), events[i])
  }

  lemma DataMatches(s: In, f: Frame, o: One, sid: U32)
    requires Valid(s) && Latest(s) && Matches(s, o, sid) && !s.stopped && f.cmd == PSH
    ensures Matches(Step(s, Arrive(f)), if f.sid == sid then OneStep(o, Arrive(f)) else o, sid)
  {
    if f.data != [] && f.sid in s.streams {
      OpeningsOffer(s.accepted, s.streams[f.sid], f.data, sid);
    } else if f.data == [] && f.sid == sid && o.live {
      var last := |o.openings| - 1;
      assert o.openings[last] + f.data == o.openings[last];
    }
  }

  lemma StepMatches(s: In, e: Event, o: One, sid: U32)
    requires Valid(s) && Latest(s) && Matches(s, o, sid) && !Errs(s, e)
    ensures Matches(Step(s, e), if Concerns(e, sid) then OneStep(o, e) else o, sid)
  {
    if e.Arrive? && !s.stopped {
      var f := e.frame;
      if f.cmd == PSH {
        DataMatches(s, f, o, sid);
      } else if f.cmd == SYN && f.sid !in s.streams {
        OpeningsSnoc(s.accepted, Accepted(f.sid, []), sid);
      }
    }
  }

  lemma WellBehavedSnoc(events: seq<Event>, e: Event)
    requires WellBehaved(events) && !Errs(Run(events), e)
    ensures WellBehaved(events + [e])
  {
    var all := events + [e];
    forall i | 0 <= i < |all| ensures !Errs(Run(all[..i]), all[i]) {
      if i < |events| {
        assert all[..i] == events[..i] && !Errs(Run(events[..i]), events[i]);
      } else {
        assert all[..i] == events;
      }
    }
  }

  lemma WellBehavedPrefix(events: seq<Event>, n: nat)
    requires WellBehaved(events) && n <= |events|
    ensures WellBehaved(events[..n])
    ensures n < |events| ==> !Errs(Run(events[..n]), events[n])
  {
    forall i | 0 <= i < n ensures !Errs(Run(events[..n][..i]), events[..n][i]) {
      assert events[..n][..i] == events[..i];
    }
  }

  /** A session that ends only by being closed, not by a protocol error, keeps its streams apart:
      whatever the interleaving, a stream's pipe is offered exactly what the events about that stream
      alone determine. */
  lemma {:induction false} StreamsAreIndependent(events: seq<Event>, sid: U32)
    requires WellBehaved(events)
    ensures Matches(Run(events), OneRun(Project(events, sid)), sid)
    decreases |events|
  {
    if events != [] {
      var n := |events| - 1;
      var before, e := events[..n], events[n];
      WellBehavedPrefix(events, n);
      StreamsAreIndependent(before, sid);
      AlwaysLatest(before);
      var o := OneRun(Project(before, sid));
      StepMatches(Run(before), e, o, sid);
      if Concerns(e, sid) {
        var p := Project(before, sid);
        assert (p + [e])[..|p|] == p;
      } else {
        assert Project(events, sid) == Project(before, sid);
      }
    }
  }

  // ---- when the loop stops --------------------------------------------------------------------

  predicate IsSettings(e: Event) {
    e.Arrive? && e.frame.cmd == SETTINGS && e.frame.data != []
  }

  predicate SettingsBefore(events: seq<Event>, n: nat)
    requires n <= |events|
  {
    exists i :: 0 <= i < n && IsSettings(events[i])
  }

  /** An event that ends the session: it is closed, an alert says why, or a stream is asked for before
      the settings came. */
  predicate Ends(events: seq<Event>, n: nat)
    requires n < |events|
  {
    match events[n]
    case CloseSession => true
    case LocalClose(_) => false
    case Arrive(f) => (f.cmd == ALERT && f.data != []) || (f.cmd == SYN && !SettingsBefore(events, n))
  }

  lemma EndsPrefix(events: seq<Event>, m: nat, n: nat)
    requires n < m <= |events|
    ensures Ends(events[..m], n) <==> Ends(events, n)
  {
    assert forall i :: 0 <= i < n ==> events[..m][i] == events[i];
    assert SettingsBefore(events[..m], n) <==> SettingsBefore(events, n);
  }

  /** The loop has stopped exactly when some event ends the session; until then the settings are known
      exactly when they have come. */
  lemma {:induction false} StopsExactly(events: seq<Event>)
    ensures Run(events).stopped <==> exists n :: 0 <= n < |events| && Ends(events, n)
    ensures !Run(events).stopped ==> (Run(events).settings <==> SettingsBefore(events, |events|))
    decreases |events|
  {
    if events != [] {
      var m := |events| - 1;
      var before := events[..m];
      StopsExactly(before);
      forall n | 0 <= n < m ensures Ends(before, n) <==> Ends(events, n) { EndsPrefix(events, m, n); }
      assert forall i :: 0 <= i < m ==> before[i] == events[i];
      assert SettingsBefore(before, m) <==> SettingsBefore(events, m);
      assert SettingsBefore(events, m + 1) <==> SettingsBefore(events, m) || IsSettings(events[m]);
      assert Run(events).stopped <==> Run(before).stopped || Ends(events, m);
      if Run(before).stopped {
        var n :| 0 <= n < m && Ends(before, n);
        assert Ends(events, n);
      }
    }
  }

  // ---- the receive loop ---------------------------------------------------------------------

  lemma RunSnoc(events: seq<Event>, e: Event)
    ensures Run(events + [e]) == Step(Run(events), e)
  {
    assert (events + [e])[..|events|] == events;
  }

  /** What happens elsewhere before a turn of the loop: streams and the session are closed. */
  predicate AllLocal(others: seq<seq<Event>>) {
    forall k, i :: 0 <= k < |others| && 0 <= i < |others[k]| ==> !others[k][i].Arrive?
  }

  function Before(others: seq<seq<Event>>, k: nat): seq<Event> {
    if k < |others| then others[k] else []
  }

  /** The k-th and later frames, each behind what happened before it. */
  function Weave(frames: seq<Frame>, others: seq<seq<Event>>, k: nat): seq<Event>
    decreases |frames|
  {
    if frames == [] then [] else Before(others, k) + [Arrive(frames[0])] + Weave(frames[1..], others, k + 1)
  }

  ghost function StepAll(s: In, events: seq<Event>): (r: In)
    requires Valid(s)
    ensures Valid(r)
    decreases |events|
  {
    if events == [] then s else StepAll(Step(s, events[0]), events[1..])
  }

  lemma {:induction false} StepAllIsRun(done: seq<Event>, events: seq<Event>)
    ensures StepAll(Run(done), events) == Run(done + events)
    decreases |events|
  {
    if events == [] {
      assert done + events == done;
    } else {
      RunSnoc(done, events[0]);
      StepAllIsRun(done + [events[0]], events[1..]);
      assert [events[0]] + events[1..] == events;
      ConcatAssociative(done, [events[0]], events[1..]);
    }
  }

  lemma {:induction false} StepAllAppend(s: In, a: seq<Event>, b: seq<Event>)
    requires Valid(s)
    ensures StepAll(s, a + b) == StepAll(StepAll(s, a), b)
    decreases |a|
  {
    if a == [] {
      assert a + b == b;
    } else {
      assert (a + b)[1..] == a[1..] + b;
      StepAllAppend(Step(s, a[0]), a[1..], b);
    }
  }

  lemma {:induction false} StoppedIgnores(s: In, events: seq<Event>)
    requires Valid(s) && s.stopped
    ensures StepAll(s, events) == s
    decreases |events|
  {
    if events != [] { StoppedIgnores(s, events[1..]); }
  }

  lemma {:induction false} LocalsOfferNothing(s: In, events: seq<Event>)
    requires Valid(s) && forall i :: 0 <= i < |events| ==> !events[i].Arrive?
    ensures StepAll(s, events).accepted == s.accepted
    decreases |events|
  {
    if events != [] { LocalsOfferNothing(Step(s, events[0]), events[1..]); }
  }

  /** What the session ends as when `left` is still to be read, from turn k on. */
  ghost function Finish(s: In, left: seq<Byte>, others: seq<seq<Event>>, k: nat): In
    requires Valid(s)
  {
    StepAll(s, Weave(ParseAll(left).frames, others, k))
  }

  lemma FinishNext(s: In, left: seq<Byte>, others: seq<seq<Event>>, k: nat)
    requires Valid(s)
    ensures ParseOne(left).NeedMore? || s.stopped ==> Finish(s, left, others, k) == s
    ensures ParseOne(left).Got? ==>
              var p, t := ParseOne(left), StepAll(s, Before(others, k));
              Finish(s, left, others, k) == Finish(Step(t, Arrive(p.frame)), left[p.used..], others, k + 1)
  {
    var p := ParseOne(left);
    if p.Got? {
      var later := ParseAll(left[p.used..]).frames;
      assert ([p.frame] + later)[1..] == later;
      var before, arrival, rest := Before(others, k), [Arrive(p.frame)], Weave(later, others, k + 1);
      ConcatAssociative(before, arrival, rest);
      StepAllAppend(s, before, arrival + rest);
      assert (arrival + rest)[1..] == rest;
    }
    if s.stopped { StoppedIgnores(s, Weave(ParseAll(left).frames, others, k)); }
  }

  lemma FinishIsRun(input: seq<Byte>, others: seq<seq<Event>>)
    ensures Finish(INITIAL, input, others, 0) == Run(Weave(ParseAll(input).frames, others, 0))
  {
    var events := Weave(ParseAll(input).frames, others, 0);
    StepAllIsRun([], events);
    assert [] + events == events;
  }

  class ServerSession {
    var settings: bool
    var stopped: bool
    var streams: map<U32, nat>
    var accepted: seq<Accepted>

    function Abs(): In
      reads this
    {
      In(settings, stopped, streams, accepted)
    }

    constructor ()
      ensures Abs() == INITIAL
    {
      settings, stopped, streams, accepted := false, false, map[], [];
    }

    /** The application closes one of the streams; the session closes if the peer cannot be told. */
    method CloseStream(sid: U32, told: bool)
      requires Valid(Abs())
      modifies this`streams, this`stopped
      ensures Abs() == Step(old(Abs()), if told then LocalClose(sid) else CloseSession)
    {
      if stopped { return; }
      if !told { stopped, streams := true, map[]; }
      streams := streams - {sid};
    }

    method Close()
      requires Valid(Abs())
      modifies this`streams, this`stopped
      ensures Abs() == Step(old(Abs()), CloseSession)
    {
      if !stopped { stopped, streams := true, map[]; }
    }

    /** What others do to the session before a turn of the loop. */
    method Disturb(events: seq<Event>)
      requires Valid(Abs()) && forall i :: 0 <= i < |events| ==> !events[i].Arrive?
      modifies this`streams, this`stopped
      ensures Valid(Abs()) && Abs() == StepAll(old(Abs()), events)
    {
      var i := 0;
      assert events[0..] == events;
      while i < |events|
        invariant i <= |events| && Valid(Abs())
        invariant StepAll(old(Abs()), events) == StepAll(Abs(), events[i..])
      {
        assert events[i..][1..] == events[i + 1..];
        match events[i] {
          case LocalClose(sid) => CloseStream(sid, true);
          case CloseSession => Close();
        }
        i := i + 1;
      }
    }

    /** The body of the loop for one frame; false when the loop must return. */
    method HandleFrame(f: Frame) returns (go: bool)
      requires Valid(Abs()) && !stopped
      modifies this
      ensures Abs() == Step(old(Abs()), Arrive(f))
      ensures go == !stopped
    {
      if f.cmd == PSH {
        if f.data != [] && f.sid in streams {
          var at := streams[f.sid];
          accepted := accepted[at := accepted[at].(offered := accepted[at].offered + f.data)];
        }
      } else if f.cmd == SYN {
        if !settings {
          stopped, streams := true, map[];
          return false;
        }
        if f.sid !in streams {
          streams := streams[f.sid := |accepted|];
          accepted := accepted + [Accepted(f.sid, [])];
        }
      } else if f.cmd == FIN || (f.cmd == SYNACK && f.data != []) {
        streams := streams - {f.sid};
      } else if f.cmd == SETTINGS && f.data != [] {
        settings := true;
      } else if f.cmd == ALERT && f.data != [] {
        stopped, streams := true, map[];
        return false;
      }
      return true;
    }

    /** Read one header, then the body its command carries; None when the connection ends first. */
    static method ReadFrame(input: seq<Byte>, at: nat) returns (f: Option<Frame>, next: nat)
      requires at <= |input|
      ensures var p := ParseOne(input[at..]); f == if p.Got? then Some(p.frame) else None
      ensures f.Some? ==> at + HEADER <= next <= |input| && next == at + ParseOne(input[at..]).used
    {
      if |input| - at < HEADER { return None, at; }
      var cmd, len := input[at], FromBe16(input[at + 5], input[at + 6]);
      var sid := FromBe32(input[at + 1], input[at + 2], input[at + 3], input[at + 4]);
      if !CarriesBody(cmd) { return Some(Frame(cmd, sid, [])), at + HEADER; }
      if |input| - at < HEADER + len { return None, at; }
      assert input[at..][HEADER..HEADER + len] == input[at + HEADER..at + HEADER + len];
      return Some(Frame(cmd, sid, input[at + HEADER..at + HEADER + len])), at + HEADER + len;
    }

    /** One turn of the loop: read a frame and handle it; false when the loop must return. */
    method ReadAndHandle(input: seq<Byte>, at: nat, others: seq<seq<Event>>, k: nat) returns (go: bool, next: nat)
      requires at <= |input| && Valid(Abs()) && !stopped && AllLocal(others)
      modifies this
      ensures go ==> at < next <= |input| && Valid(Abs()) && !stopped
      ensures go ==> Finish(old(Abs()), input[at..], others, k) == Finish(Abs(), input[next..], others, k + 1)
      ensures !go ==> Finish(old(Abs()), input[at..], others, k).accepted == accepted
    {
      ghost var s, left := Abs(), input[at..];
      Disturb(Before(others, k));
      ghost var t := Abs();
      if stopped {
        assert Finish(s, left, others, k).accepted == accepted by { StoppedEnds(s, left, others, k); }
        return false, at;
      }
      var f;
      f, next := ReadFrame(input, at);
      if f.None? {
        assert Finish(s, left, others, k).accepted == accepted by { NothingLeft(s, left, others, k); }
        return false, at;
      }
      assert left[next - at..] == input[next..];
      assert Finish(s, left, others, k) == Finish(Step(t, Arrive(f.value)), input[next..], others, k + 1) by {
        FinishNext(s, left, others, k);
      }
      go := HandleFrame(f.value);
      if !go {
        assert Finish(Abs(), input[next..], others, k + 1) == Abs() by { FinishNext(Abs(), input[next..], others, k + 1); }
      }
    }

    /** Read frames off the connection until it ends, the loop must return or the session is closed. */
    method RecvLoop(input: seq<Byte>, others: seq<seq<Event>>)
      requires Abs() == INITIAL && AllLocal(others)
      modifies this
      ensures accepted == Run(Weave(ParseAll(input).frames, others, 0)).accepted
      ensures stopped && streams == map[]
    {
      var at, k, go := 0, 0, true;
      ghost var end := Finish(INITIAL, input, others, 0);
      assert input[0..] == input;
      while go
        invariant at <= |input|
        invariant go ==> Valid(Abs()) && !stopped && end == Finish(Abs(), input[at..], others, k)
        invariant !go ==> end.accepted == accepted
        decreases go, |input| - at
      {
        var next;
        go, next := ReadAndHandle(input, at, others, k);
        if go { at, k := next, k + 1; }
      }
      FinishIsRun(input, others);
      stopped, streams := true, map[];
    }
  }

  /** A session closed before the turn offers nothing more, */
  lemma StoppedEnds(s: In, left: seq<Byte>, others: seq<seq<Event>>, k: nat)
    requires Valid(s) && StepAll(s, Before(others, k)).stopped && AllLocal(others)
    ensures Finish(s, left, others, k).accepted == StepAll(s, Before(others, k)).accepted
  {
    var t := StepAll(s, Before(others, k));
    if ParseOne(left).NeedMore? {
      NothingLeft(s, left, others, k);
    } else {
      var rest := left[ParseOne(left).used..];
      assert Finish(s, left, others, k) == Finish(t, rest, others, k + 1) by { FinishNext(s, left, others, k); }
      assert Finish(t, rest, others, k + 1) == t by { FinishNext(t, rest, others, k + 1); }
    }
  }

  /** nor does one whose connection has ended. */
  lemma NothingLeft(s: In, left: seq<Byte>, others: seq<seq<Event>>, k: nat)
    requires Valid(s) && ParseOne(left).NeedMore? && AllLocal(others)
    ensures Finish(s, left, others, k).accepted == StepAll(s, Before(others, k)).accepted
  {
    assert Finish(s, left, others, k) == s by { FinishNext(s, left, others, k); }
    LocalsOfferNothing(s, Before(others, k));
  }
}
