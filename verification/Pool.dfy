/** The AnyTLS client's session pool: idle and serving sessions, reuse and cleanup. */
module Pool {
  import opened Bytes

  /** An idle session: its sequence number and since when it has been idle. */
  datatype Idle = Idle(number: nat, since: int)

  /** Newest first, as the list keyed by the complement of the sequence number iterates. */
  ghost predicate Sorted(idle: seq<Idle>) {
    forall i, j :: 0 <= i < j < |idle| ==> idle[i].number > idle[j].number
  }

  function Numbers(idle: seq<Idle>): set<nat> {
    set e | e in idle :: e.number
  }

  /** `open` holds, for every session that is not closed, the streams it serves. */
  datatype State = State(dead: bool, counter: nat, idle: seq<Idle>, sessions: set<nat>, open: map<nat, set<nat>>)

  const INITIAL := State(false, 0, [], {}, map[])

  function Insert(idle: seq<Idle>, e: Idle): seq<Idle> {
    if idle == [] || e.number > idle[0].number then [e] + idle
    else if e.number == idle[0].number then [e] + idle[1..]
    else [idle[0]] + Insert(idle[1..], e)
  }

  function Remove(idle: seq<Idle>, number: nat): seq<Idle> {
    if idle == [] then []
    else if idle[0].number == number then idle[1..]
    else [idle[0]] + Remove(idle[1..], number)
  }

  lemma SortedCons(e: Idle, rest: seq<Idle>)
    requires Sorted(rest) && (rest != [] ==> e.number > rest[0].number)
    ensures Sorted([e] + rest)
  {
    var all := [e] + rest;
    forall i, j | 0 <= i < j < |all| ensures all[i].number > all[j].number {
      assert all[j] == rest[j - 1];
      assert rest[0].number >= rest[j - 1].number;
    }
  }

  lemma {:induction false} InsertOrder(idle: seq<Idle>, e: Idle)
    requires Sorted(idle)
    ensures Sorted(Insert(idle, e))
    ensures Insert(idle, e) != [] && (Insert(idle, e)[0] == e || (idle != [] && Insert(idle, e)[0] == idle[0]))
  {
    if idle == [] || e.number > idle[0].number {
      SortedCons(e, idle);
    } else {
      assert Sorted(idle[1..]);
      assert idle[1..] != [] ==> idle[0].number > idle[1].number;
      if e.number == idle[0].number {
        SortedCons(e, idle[1..]);
      } else {
        InsertOrder(idle[1..], e);
        SortedCons(idle[0], Insert(idle[1..], e));
      }
    }
  }

  lemma {:induction false} InsertNumbers(idle: seq<Idle>, e: Idle)
    ensures Numbers(Insert(idle, e)) == Numbers(idle) + {e.number}
  {
    if idle == [] || e.number > idle[0].number {
      NumbersCons(e, idle);
    } else {
      assert idle == [idle[0]] + idle[1..];
      NumbersCons(idle[0], idle[1..]);
      if e.number == idle[0].number {
        NumbersCons(e, idle[1..]);
      } else {
        InsertNumbers(idle[1..], e);
        NumbersCons(idle[0], Insert(idle[1..], e));
      }
    }
  }

  lemma InsertSorted(idle: seq<Idle>, e: Idle)
    requires Sorted(idle)
    ensures Sorted(Insert(idle, e)) && Numbers(Insert(idle, e)) == Numbers(idle) + {e.number}
  {
    InsertOrder(idle, e);
    InsertNumbers(idle, e);
  }

  /** A sorted list whose elements come from the tail of `idle` goes behind its head. */
  lemma TailBelow(idle: seq<Idle>, rest: seq<Idle>)
    requires Sorted(idle) && idle != [] && Sorted(rest) && Numbers(rest) <= Numbers(idle[1..])
    ensures Sorted([idle[0]] + rest)
  {
    forall i | 0 <= i < |rest| ensures idle[0].number > rest[i].number {
      assert rest[i].number in Numbers(rest);
      BelowHead(idle, rest[i].number);
    }
  }

  lemma NumbersCons(e: Idle, rest: seq<Idle>)
    ensures Numbers([e] + rest) == {e.number} + Numbers(rest)
  {
    var all := [e] + rest;
    assert e in all;
    assert forall x :: x in rest ==> x in all;
    assert forall x :: x in all ==> x == e || x in rest;
  }

  lemma EmptyExactly(idle: seq<Idle>)
    ensures idle == [] <==> Numbers(idle) == {}
  {
    if idle != [] {
      assert idle[0] in idle;
      assert idle[0].number in Numbers(idle);
    }
  }

  lemma BelowHead(idle: seq<Idle>, number: nat)
    requires Sorted(idle) && idle != []
    ensures number in Numbers(idle[1..]) ==> number < idle[0].number
  {
    if number in Numbers(idle[1..]) {
      var x :| x in idle[1..] && x.number == number;
      var i :| 0 <= i < |idle| - 1 && idle[1..][i] == x;
      assert idle[i + 1] == x;
    }
  }

  /** The head is the newest, and only the head. */
  lemma NewestFirst(idle: seq<Idle>)
    requires Sorted(idle) && idle != []
    ensures idle[0].number in Numbers(idle) && forall n :: n in Numbers(idle) ==> n <= idle[0].number
    ensures Sorted(idle[1..]) && Numbers(idle[1..]) == Numbers(idle) - {idle[0].number}
  {
    assert idle == [idle[0]] + idle[1..];
    NumbersCons(idle[0], idle[1..]);
    forall n | n in Numbers(idle[1..]) ensures n < idle[0].number { BelowHead(idle, n); }
  }

  lemma {:induction false} RemoveSorted(idle: seq<Idle>, number: nat)
    requires Sorted(idle)
    ensures Sorted(Remove(idle, number)) && Numbers(Remove(idle, number)) == Numbers(idle) - {number}
  {
    if idle != [] {
      BelowHead(idle, number);
      BelowHead(idle, idle[0].number);
      NumbersCons(idle[0], idle[1..]);
      assert idle == [idle[0]] + idle[1..];
      if idle[0].number != number {
        RemoveSorted(idle[1..], number);
        var rest := Remove(idle[1..], number);
        assert Sorted([idle[0]] + rest) by { TailBelow(idle, rest); }
        NumbersCons(idle[0], rest);
      }
    }
  }

  // ---- steps ---------------------------------------------------------------------------------

  /** A session closes: its hook takes it out of the pool and its streams die with it. */
  function CloseSession(s: State, number: nat): State {
    s.(idle := Remove(s.idle, number), sessions := s.sessions - {number}, open := s.open - {number})
  }

  /** A stream is asked for: reuse the newest idle session, else dial a new one; a session on which no
      stream can be opened is closed. Returns the session used. */
  function CreateStream(s: State, reuse: bool, dials: bool, opens: bool, stream: nat): (State, Option<nat>) {
    if s.dead then (s, None)
    else
      var reused := reuse && s.idle != [];
      if !reused && !dials then (s, None)
      else
        var number := if reused then s.idle[0].number else s.counter + 1;
        var t := if reused then s.(idle := s.idle[1..])
                 else s.(counter := s.counter + 1, sessions := s.sessions + {number}, open := s.open[number := {}]);
        if opens && number in t.open
        then (t.(open := t.open[number := t.open[number] + {stream}]), Some(number))
        else (CloseSession(t, number), None)
  }

  /** A stream dies: its hook returns the session to the pool, or closes it. */
  function StreamDied(s: State, reuse: bool, number: nat, stream: nat, now: int): State {
    if number !in s.open || stream !in s.open[number] then s
    else
      var t := s.(open := s.open[number := s.open[number] - {stream}]);
      if !reuse || s.dead then CloseSession(t, number) else t.(idle := Insert(t.idle, Idle(number, now)))
  }

  /** The whole client closes. */
  function CloseAll(s: State): State {
    s.(dead := true, idle := [], sessions := {}, open := s.open - s.sessions)
  }

  // ---- cleanup -------------------------------------------------------------------------------

  datatype Swept = Swept(kept: seq<Idle>, closed: seq<nat>)

  /** Walk the first n idle sessions, newest first: keep the fresh, refresh up to a minimum, close the
      rest. */
  function Sweep(idle: seq<Idle>, n: nat, expiry: int, now: int, minimum: int): Swept
    requires n <= |idle|
  {
    if n == 0 then Swept([], [])
    else
      var r, e := Sweep(idle, n - 1, expiry, now, minimum), idle[n - 1];
      if e.since >= expiry then r.(kept := r.kept + [e])
      else if |r.kept| < minimum then r.(kept := r.kept + [Idle(e.number, now)])
      else r.(closed := r.closed + [e.number])
  }

  function CloseMany(s: State, numbers: seq<nat>): State
    decreases |numbers|
  {
    if numbers == [] then s
    else CloseSession(CloseMany(s, numbers[..|numbers| - 1]), numbers[|numbers| - 1])
  }

  function Cleanup(s: State, expiry: int, now: int, minimum: int): State {
    var r := Sweep(s.idle, |s.idle|, expiry, now, minimum);
    CloseMany(s.(idle := r.kept), r.closed)
  }

  /** A kept session is an unexpired one unchanged, or an expired one made fresh. */
  ghost predicate KeptFrom(k: Idle, e: Idle, expiry: int, now: int) {
    k.number == e.number && if e.since >= expiry then k == e else k.since == now
  }

  /** A sweep keeps at least the minimum or everything, closes only what is expired, and leaves what it
      keeps unexpired. */
  lemma {:induction false} SweepKeepsEnough(idle: seq<Idle>, n: nat, expiry: int, now: int, minimum: int)
    requires n <= |idle| && expiry <= now
    ensures var r := Sweep(idle, n, expiry, now, minimum);
            && |r.kept| + |r.closed| == n
            && (r.closed != [] ==> |r.kept| >= minimum)
            && (|r.kept| >= minimum || |r.kept| == n)
            && (forall k :: 0 <= k < |r.kept| ==> r.kept[k].since >= expiry)
  {
    if n > 0 { SweepKeepsEnough(idle, n - 1, expiry, now, minimum); }
  }

  /** Up to any point, at least the minimum or everything has been kept. */
  lemma {:induction false} KeptSoFar(idle: seq<Idle>, n: nat, expiry: int, now: int, minimum: int)
    requires n <= |idle|
    ensures var kept := |Sweep(idle, n, expiry, now, minimum).kept|; kept == n || (minimum <= kept <= n)
  {
    if n > 0 { KeptSoFar(idle, n - 1, expiry, now, minimum); }
  }

  /** Exactly which sessions are closed: the expired ones with at least the minimum of newer idle
      sessions. Every other one is kept. */
  lemma {:induction false} SweepClosesExactly(idle: seq<Idle>, n: nat, expiry: int, now: int, minimum: int, i: nat)
    requires n <= |idle| && Sorted(idle) && i < n
    ensures var r := Sweep(idle, n, expiry, now, minimum);
            && (idle[i].number in r.closed <==>
                  idle[i].since < expiry && i >= minimum)
            && (idle[i].number !in r.closed ==> exists k :: k in r.kept && KeptFrom(k, idle[i], expiry, now))
  {
    var m := n - 1;
    var r, e := Sweep(idle, m, expiry, now, minimum), idle[m];
    var all := Sweep(idle, n, expiry, now, minimum);
    if i < m {
      SweepClosesExactly(idle, m, expiry, now, minimum, i);
      assert idle[i].number != e.number;
      assert forall k :: k in r.kept ==> k in all.kept;
    } else {
      KeptSoFar(idle, m, expiry, now, minimum);
      SweepFromPrefix(idle, m, expiry, now, minimum);
      if all.kept != r.kept {
        var k := all.kept[|all.kept| - 1];
        assert k in all.kept && KeptFrom(k, e, expiry, now);
      }
    }
  }

  /** What a sweep of a prefix mentions comes from that prefix, in order. */
  lemma SweepFromPrefix(idle: seq<Idle>, n: nat, expiry: int, now: int, minimum: int)
    requires n <= |idle| && Sorted(idle)
    ensures var r := Sweep(idle, n, expiry, now, minimum);
            && Sorted(r.kept)
            && (forall c :: c in r.closed ==> exists i :: 0 <= i < n && idle[i].number == c)
            && (forall k :: k in r.kept ==> exists i :: 0 <= i < n && idle[i].number == k.number)
            && (n < |idle| ==> idle[n].number !in r.closed && forall k :: k in r.kept ==> k.number > idle[n].number)
  {
    SweepSources(idle, n, expiry, now, minimum);
    SweepOrder(idle, n, expiry, now, minimum);
  }

  lemma {:induction false} SweepSources(idle: seq<Idle>, n: nat, expiry: int, now: int, minimum: int)
    requires n <= |idle|
    ensures var r := Sweep(idle, n, expiry, now, minimum);
            && (forall c :: c in r.closed ==> exists i :: 0 <= i < n && idle[i].number == c)
            && (forall k :: k in r.kept ==> exists i :: 0 <= i < n && idle[i].number == k.number)
  {
    if n > 0 {
      SweepSources(idle, n - 1, expiry, now, minimum);
      assert idle[n - 1].number == idle[n - 1].number;
    }
  }

  lemma {:induction false} SweepOrder(idle: seq<Idle>, n: nat, expiry: int, now: int, minimum: int)
    requires n <= |idle| && Sorted(idle)
    ensures Sorted(Sweep(idle, n, expiry, now, minimum).kept)
  {
    if n > 0 {
      SweepOrder(idle, n - 1, expiry, now, minimum);
      var r := Sweep(idle, n - 1, expiry, now, minimum);
      forall i | 0 <= i < |r.kept|
        ensures r.kept[i].number > idle[n - 1].number
      {
        SweepSources(idle, n - 1, expiry, now, minimum);
        assert r.kept[i] in r.kept;
      }
    }
  }

  // ---- the invariant over runs ---------------------------------------------------------------

  datatype Event =
    | Create(dials: bool, opens: bool, stream: nat)
    | StreamEnds(number: nat, stream: nat, now: int)
    | SessionEnds(number: nat)
    | Sweeps(expiry: int, now: int, minimum: int)
    | ClientCloses

  function Next(s: State, reuse: bool, e: Event): State {
    match e
    case Create(dials, opens, stream) => CreateStream(s, reuse, dials, opens, stream).0
    case StreamEnds(number, stream, now) => StreamDied(s, reuse, number, stream, now)
    case SessionEnds(number) => CloseSession(s, number)
    case Sweeps(expiry, now, minimum) => Cleanup(s, expiry, now, minimum)
    case ClientCloses => CloseAll(s)
  }

  /** Every live session is registered, and either idle or serving exactly one stream, never both. */
  ghost predicate Inv(s: State) {
    && Sorted(s.idle)
    && s.sessions == s.open.Keys
    && Numbers(s.idle) <= s.open.Keys
    && (forall n :: n in s.open ==> n <= s.counter && (if n in Numbers(s.idle) then s.open[n] == {} else |s.open[n]| == 1))
    && (s.dead ==> s.open == map[])
  }

  lemma CloseKeeps(s: State, number: nat)
    requires Sorted(s.idle) && s.sessions == s.open.Keys && Numbers(s.idle) <= s.open.Keys
    requires forall n :: n in s.open ==> n <= s.counter
    requires forall n :: n in s.open && n != number ==> if n in Numbers(s.idle) then s.open[n] == {} else |s.open[n]| == 1
    requires s.dead ==> s.open.Keys <= {number}
    ensures Inv(CloseSession(s, number))
  {
    RemoveSorted(s.idle, number);
    var t := CloseSession(s, number);
    if s.dead { assert t.open.Keys == {}; }
  }

  lemma HeadNumber(idle: seq<Idle>)
    requires Sorted(idle) && idle != []
    ensures Sorted(idle[1..]) && Numbers(idle[1..]) == Numbers(idle) - {idle[0].number}
    ensures idle[0].number in Numbers(idle) && forall n :: n in Numbers(idle) ==> n <= idle[0].number
  {
    assert idle == [idle[0]] + idle[1..];
    NumbersCons(idle[0], idle[1..]);
    BelowHead(idle, idle[0].number);
    forall n | n in Numbers(idle)
      ensures n <= idle[0].number
    {
      BelowHead(idle, n);
    }
  }

  lemma CreateKeeps(s: State, reuse: bool, dials: bool, opens: bool, stream: nat)
    requires Inv(s)
    ensures Inv(CreateStream(s, reuse, dials, opens, stream).0)
  {
    var reused := reuse && s.idle != [];
    if !s.dead && (reused || dials) {
      var number := if reused then s.idle[0].number else s.counter + 1;
      if reused { HeadNumber(s.idle); }
      var t := if reused then s.(idle := s.idle[1..])
               else s.(counter := s.counter + 1, sessions := s.sessions + {number}, open := s.open[number := {}]);
      if opens {
        assert t.open[number] == {} && number !in Numbers(t.idle);
        assert t.open[number] + {stream} == {stream};
      } else {
        CloseKeeps(t, number);
      }
    }
  }

  /** Reuse takes the newest idle session, and the stream it returns is served by that session alone. */
  lemma ReusesNewest(s: State, dials: bool, stream: nat)
    requires Inv(s) && !s.dead && s.idle != []
    ensures var (t, used) := CreateStream(s, true, dials, true, stream);
            && used == Some(s.idle[0].number) && used.value in Numbers(s.idle)
            && (forall n :: n in Numbers(s.idle) ==> n <= used.value)
            && t.open == s.open[used.value := {stream}] && Numbers(t.idle) == Numbers(s.idle) - {used.value}
  {
    HeadNumber(s.idle);
    assert s.open[s.idle[0].number] + {stream} == {stream};
  }

  lemma StreamDiedKeeps(s: State, reuse: bool, number: nat, stream: nat, now: int)
    requires Inv(s)
    ensures Inv(StreamDied(s, reuse, number, stream, now))
  {
    if number in s.open && stream in s.open[number] {
      assert s.open[number] - {stream} == {} by {
        assert |s.open[number] - {stream}| == 0;
      }
      var t := s.(open := s.open[number := {}]);
      if !reuse || s.dead {
        CloseKeeps(t, number);
      } else {
        InsertSorted(t.idle, Idle(number, now));
      }
    }
  }

  lemma {:induction false} InsertElements(idle: seq<Idle>, e: Idle)
    requires e.number !in Numbers(idle)
    ensures forall x :: x in Insert(idle, e) <==> x == e || x in idle
  {
    if idle != [] && !(e.number > idle[0].number) {
      assert idle == [idle[0]] + idle[1..];
      NumbersCons(idle[0], idle[1..]);
      InsertElements(idle[1..], e);
    }
  }

  /** The session of a finished stream goes back to the pool, idle since now, and nothing else changes. */
  lemma StreamReturns(s: State, number: nat, stream: nat, now: int)
    requires Inv(s) && !s.dead && number in s.open && stream in s.open[number]
    ensures var t := StreamDied(s, true, number, stream, now);
            && t == s.(idle := t.idle, open := s.open[number := {}])
            && Numbers(t.idle) == Numbers(s.idle) + {number} && number !in Numbers(s.idle)
            && (forall x :: x in t.idle <==> x == Idle(number, now) || x in s.idle)
  {
    assert s.open[number] - {stream} == {} by {
      assert |s.open[number] - {stream}| == 0;
    }
    InsertSorted(s.idle, Idle(number, now));
    InsertElements(s.idle, Idle(number, now));
  }

  /** There it can be taken again: if it is the newest, the next stream gets it. */
  lemma ReturnedIsReused(s: State, number: nat, stream: nat, now: int, dials: bool, next: nat)
    requires Inv(s) && !s.dead && number in s.open && stream in s.open[number]
    ensures var t := StreamDied(s, true, number, stream, now);
            var used := CreateStream(t, true, dials, true, next).1;
            && used.Some? && used.value in Numbers(s.idle) + {number}
            && (forall n :: n in Numbers(s.idle) + {number} ==> n <= used.value)
  {
    var t := StreamDied(s, true, number, stream, now);
    StreamReturns(s, number, stream, now);
    StreamDiedKeeps(s, true, number, stream, now);
    assert Idle(number, now) in t.idle;
    ReusesNewest(t, dials, next);
  }

  /** Without reuse, or once the client is closed, it is closed instead, and nothing else changes. */
  lemma StreamEndsSession(s: State, reuse: bool, number: nat, stream: nat, now: int)
    requires Inv(s) && (!reuse || s.dead) && number in s.open && stream in s.open[number]
    ensures StreamDied(s, reuse, number, stream, now) == s.(sessions := s.sessions - {number}, open := s.open - {number})
  {
    RemoveAbsent(s.idle, number);
    assert s.open[number := s.open[number] - {stream}] - {number} == s.open - {number};
  }

  /** With no idle session to take, a stream gets a new one, under the next number. */
  lemma DialsNext(s: State, reuse: bool, stream: nat)
    requires Inv(s) && !s.dead && (!reuse || s.idle == [])
    ensures var n := s.counter + 1;
            && n !in s.open && n !in s.sessions
            && CreateStream(s, reuse, true, true, stream) ==
               (s.(counter := n, sessions := s.sessions + {n}, open := s.open[n := {stream}]), Some(n))
  {
    var n := s.counter + 1;
    var none: set<nat> := {};
    assert none + {stream} == {stream};
    assert s.open[n := none][n := none + {stream}] == s.open[n := {stream}];
  }

  /** A stream that cannot be had costs the session it was tried on and nothing else. */
  lemma FailureCosts(s: State, reuse: bool, dials: bool, stream: nat)
    requires Inv(s)
    ensures s.dead || (!dials && (!reuse || s.idle == [])) ==>
              forall opens :: CreateStream(s, reuse, dials, opens, stream) == (s, None)
    ensures !s.dead && reuse && s.idle != [] ==>
              var n := s.idle[0].number;
              CreateStream(s, reuse, dials, false, stream)
              == (s.(idle := s.idle[1..], sessions := s.sessions - {n}, open := s.open - {n}), None)
    ensures !s.dead && dials && (!reuse || s.idle == []) ==>
              CreateStream(s, reuse, dials, false, stream) == (s.(counter := s.counter + 1), None)
  {
    if s.idle != [] {
      HeadNumber(s.idle);
      RemoveAbsent(s.idle[1..], s.idle[0].number);
    }
    var n := s.counter + 1;
    assert n !in s.open;
    RemoveAbsent(s.idle, n);
    assert s.sessions + {n} - {n} == s.sessions && s.open[n := {}] - {n} == s.open;
  }

  /** A session that ends leaves the pool, and only it. */
  lemma SessionEndsAlone(s: State, number: nat)
    requires Inv(s)
    ensures var t := CloseSession(s, number);
            && t == s.(idle := t.idle, sessions := s.sessions - {number}, open := s.open - {number})
            && Numbers(t.idle) == Numbers(s.idle) - {number} && (forall x :: x in t.idle ==> x in s.idle)
  {
    RemoveSorted(s.idle, number);
    RemoveElements(s.idle, number);
  }

  lemma {:induction false} RemoveElements(idle: seq<Idle>, number: nat)
    ensures forall x :: x in Remove(idle, number) ==> x in idle
  {
    if idle != [] { RemoveElements(idle[1..], number); }
  }

  /** Closing the client leaves nothing open, for good. */
  lemma ClientClosesAll(s: State, reuse: bool, dials: bool, opens: bool, stream: nat)
    requires Inv(s)
    ensures var t := CloseAll(s);
            && t == State(true, s.counter, [], {}, map[])
            && CreateStream(t, reuse, dials, opens, stream) == (t, None)
  {
    assert s.open - s.sessions == map[];
  }

  lemma {:induction false} RemoveAbsent(idle: seq<Idle>, number: nat)
    requires number !in Numbers(idle)
    ensures Remove(idle, number) == idle
  {
    if idle != [] {
      assert idle == [idle[0]] + idle[1..];
      NumbersCons(idle[0], idle[1..]);
      RemoveAbsent(idle[1..], number);
    }
  }

  function AsSet(numbers: seq<nat>): set<nat> {
    set n | n in numbers
  }

  lemma {:induction false} CloseManyEffect(s: State, numbers: seq<nat>)
    requires AsSet(numbers) !! Numbers(s.idle)
    ensures CloseMany(s, numbers)
         == s.(sessions := s.sessions - AsSet(numbers), open := s.open - AsSet(numbers))
    decreases |numbers|
  {
    if numbers == [] {
      assert s.sessions - {} == s.sessions && s.open - {} == s.open;
    } else {
      var n := |numbers| - 1;
      var before, last := AsSet(numbers[..n]), numbers[n];
      assert AsSet(numbers) == before + {last} by {
        assert numbers == numbers[..n] + [last];
      }
      CloseManyEffect(s, numbers[..n]);
      RemoveAbsent(s.idle, last);
      assert s.sessions - before - {last} == s.sessions - AsSet(numbers);
      assert s.open - before - {last} == s.open - AsSet(numbers);
    }
  }

  /** The swept sessions' numbers split into those kept and those closed. */
  lemma SweepPartitions(idle: seq<Idle>, expiry: int, now: int, minimum: int)
    requires Sorted(idle)
    ensures var r := Sweep(idle, |idle|, expiry, now, minimum);
            Sorted(r.kept) && AsSet(r.closed) !! Numbers(r.kept) && AsSet(r.closed) + Numbers(r.kept) == Numbers(idle)
  {
    var n := |idle|;
    var r := Sweep(idle, n, expiry, now, minimum);
    SweepFromPrefix(idle, n, expiry, now, minimum);
    SweepDisjoint(idle, n, expiry, now, minimum);
    forall x | x in Numbers(idle)
      ensures x in AsSet(r.closed) + Numbers(r.kept)
    {
      var e :| e in idle && e.number == x;
      var i :| 0 <= i < |idle| && idle[i] == e;
      SweepClosesExactly(idle, n, expiry, now, minimum, i);
      if x !in r.closed {
        var k :| k in r.kept && KeptFrom(k, idle[i], expiry, now);
      }
    }
    forall x | x in AsSet(r.closed) + Numbers(r.kept)
      ensures x in Numbers(idle)
    {
      var i :| 0 <= i < n && idle[i].number == x;
      assert idle[i] in idle;
    }
  }

  lemma {:induction false} SweepDisjoint(idle: seq<Idle>, n: nat, expiry: int, now: int, minimum: int)
    requires Sorted(idle) && n <= |idle|
    ensures var r := Sweep(idle, n, expiry, now, minimum); AsSet(r.closed) !! Numbers(r.kept)
  {
    if n > 0 {
      SweepDisjoint(idle, n - 1, expiry, now, minimum);
      SweepFromPrefix(idle, n - 1, expiry, now, minimum);
    }
  }

  /** A cleanup keeps the pool invariant and closes no session that is serving a stream. */
  lemma CleanupKeeps(s: State, expiry: int, now: int, minimum: int)
    requires Inv(s)
    ensures var t := Cleanup(s, expiry, now, minimum);
            && Inv(t)
            && (forall n :: n in s.open && s.open[n] != {} ==> n in t.open && t.open[n] == s.open[n])
            && Numbers(t.idle) <= Numbers(s.idle)
            && t.idle == Sweep(s.idle, |s.idle|, expiry, now, minimum).kept
  {
    var r := Sweep(s.idle, |s.idle|, expiry, now, minimum);
    SweepPartitions(s.idle, expiry, now, minimum);
    CloseManyEffect(s.(idle := r.kept), r.closed);
  }

  lemma NextKeeps(s: State, reuse: bool, e: Event)
    requires Inv(s)
    ensures Inv(Next(s, reuse, e))
  {
    match e
    case Create(dials, opens, stream) => CreateKeeps(s, reuse, dials, opens, stream);
    case StreamEnds(number, stream, now) => StreamDiedKeeps(s, reuse, number, stream, now);
    case SessionEnds(number) => CloseKeeps(s, number);
    case Sweeps(expiry, now, minimum) => CleanupKeeps(s, expiry, now, minimum);
    case ClientCloses =>
      assert s.open - s.sessions == map[];
      assert Numbers([]) == {};
  }

  ghost predicate IsRun(states: seq<State>, events: seq<Event>, reuse: bool) {
    && |states| == |events| + 1 && states[0] == INITIAL
    && forall i :: 0 <= i < |events| ==> states[i + 1] == Next(states[i], reuse, events[i])
  }

  /** In every reachable state of the pool, every live session is idle or serves exactly one stream. */
  lemma {:induction false} InvAlways(states: seq<State>, events: seq<Event>, reuse: bool, n: nat)
    requires IsRun(states, events, reuse) && n < |states|
    ensures Inv(states[n])
  {
    if n == 0 {
      assert Numbers([]) == {};
    } else {
      InvAlways(states, events, reuse, n - 1);
      NextKeeps(states[n - 1], reuse, events[n - 1]);
    }
  }

  // ---- the client object ---------------------------------------------------------------------

  class Client {
    var dead: bool
    var counter: nat
    var idle: seq<Idle>
    var sessions: set<nat>
    var open: map<nat, set<nat>>
    const reuse: bool

    function Abs(): State
      reads this
    {
      State(dead, counter, idle, sessions, open)
    }

    constructor (reuse: bool)
      ensures Abs() == INITIAL && this.reuse == reuse
    {
      this.dead, this.counter, this.idle, this.sessions, this.open := false, 0, [], {}, map[];
      this.reuse := reuse;
    }

    method SessionClose(number: nat)
      modifies this`idle, this`sessions, this`open
      ensures Abs() == CloseSession(old(Abs()), number)
    {
      idle := Remove(idle, number);
      sessions := sessions - {number};
      open := open - {number};
    }

    /** Take the newest idle session out of the pool. */
    method GetIdleSession() returns (number: Option<nat>)
      requires Sorted(idle)
      modifies this`idle
      ensures number.None? <==> old(idle) == []
      ensures number.None? ==> idle == []
      ensures number.Some? ==>
                && number.value in Numbers(old(idle)) && (forall n :: n in Numbers(old(idle)) ==> n <= number.value)
                && number.value == old(idle)[0].number && idle == old(idle)[1..]
                && Sorted(idle) && Numbers(idle) == Numbers(old(idle)) - {number.value}
    {
      if idle != [] { NewestFirst(idle); }
      if idle == [] { return None; }
      number := Some(idle[0].number);
      idle := idle[1..];
    }

    method NewStream(dials: bool, opens: bool, stream: nat) returns (used: Option<nat>)
      requires Inv(Abs())
      modifies this
      ensures (Abs(), used) == CreateStream(old(Abs()), reuse, dials, opens, stream)
      ensures Inv(Abs())
    {
      CreateKeeps(Abs(), reuse, dials, opens, stream);
      if dead { return None; }
      var session: Option<nat> := None;
      if reuse { session := GetIdleSession(); }
      if session.None? {
        if !dials { return None; }
        counter := counter + 1;
        session := Some(counter);
        sessions := sessions + {counter};
        open := open[counter := {}];
      }
      var number := session.value;
      if !opens || number !in open {
        SessionClose(number);
        return None;
      }
      open := open[number := open[number] + {stream}];
      return Some(number);
    }

    method StreamHook(number: nat, stream: nat, now: int)
      requires Inv(Abs())
      modifies this
      ensures Abs() == StreamDied(old(Abs()), reuse, number, stream, now)
      ensures Inv(Abs())
    {
      StreamDiedKeeps(Abs(), reuse, number, stream, now);
      if number !in open || stream !in open[number] { return; }
      open := open[number := open[number] - {stream}];
      if !reuse || dead {
        SessionClose(number);
      } else {
        idle := Insert(idle, Idle(number, now));
      }
    }

    method IdleCleanup(expiry: int, now: int, minimum: int)
      requires Inv(Abs())
      modifies this
      ensures Abs() == Cleanup(old(Abs()), expiry, now, minimum)
      ensures Inv(Abs())
    {
      CleanupKeeps(Abs(), expiry, now, minimum);
      var active, kept, toClose, i := 0, [], [], 0;
      while i < |idle|
        invariant i <= |idle| && active == |kept|
        invariant Swept(kept, toClose) == Sweep(idle, i, expiry, now, minimum)
      {
        var e := idle[i];
        i := i + 1;
        if e.since >= expiry {
          active := active + 1;
          kept := kept + [e];
          continue;
        }
        if active < minimum {
          kept := kept + [Idle(e.number, now)];
          active := active + 1;
          continue;
        }
        toClose := toClose + [e.number];
      }
      idle := kept;
      CloseEach(toClose);
    }

    /** Close the client: every session in the table, in whatever order. */
    method Close()
      requires Inv(Abs())
      modifies this
      ensures Abs() == CloseAll(old(Abs())) && Inv(Abs())
    {
      assert Inv(CloseAll(Abs())) by { NextKeeps(Abs(), reuse, ClientCloses); }
      dead := true;
      var left := sessions;
      sessions := {};
      ghost var closed: set<nat> := {};
      while left != {}
        invariant closed + left == old(sessions) && closed !! left && dead && counter == old(counter)
        invariant sessions == {} && open == old(open) - closed
        invariant Sorted(idle) && Numbers(idle) == Numbers(old(idle)) - closed
        decreases left
      {
        var n :| n in left;
        RemoveSorted(idle, n);
        SessionClose(n);
        left := left - {n};
        closed := closed + {n};
      }
      assert Numbers(idle) == {};
      EmptyExactly(idle);
    }

    method CloseEach(numbers: seq<nat>)
      modifies this
      ensures Abs() == CloseMany(old(Abs()), numbers)
    {
      var j := 0;
      while j < |numbers|
        invariant j <= |numbers| && Abs() == CloseMany(old(Abs()), numbers[..j])
      {
        assert numbers[..j + 1][..j] == numbers[..j];
        SessionClose(numbers[j]);
        j := j + 1;
      }
      assert numbers[..j] == numbers;
    }
  }
}
