/** The tun2socks DNS answer cache, keyed by server and question without the transaction id. */
module DnsCache {
  import opened Bytes

  const TTL := 60
  const LIMIT := 512

  type Server = s: seq<Byte> | |s| == 4 witness [0, 0, 0, 0]

  function Key(server: Server, query: seq<Byte>): seq<Byte> {
    server + if |query| > 2 then query[2..] else []
  }

  datatype Entry = Entry(response: seq<Byte>, expiry: int)

  type Entries = map<seq<Byte>, Entry>

  /** A live answer, if the cache holds one. */
  function Find(c: Entries, key: seq<Byte>, now: int): Option<seq<Byte>> {
    if key in c && c[key].expiry > now then Some(c[key].response) else None
  }

  /** Looking up drops an answer found expired. */
  function AfterFind(c: Entries, key: seq<Byte>, now: int): Entries {
    if key in c && c[key].expiry <= now then c - {key} else c
  }

  /** The asking query's own transaction id on a cached answer. */
  function Restamp(response: seq<Byte>, query: seq<Byte>): seq<Byte> {
    if |response| >= 2 && |query| >= 2 then query[..2] + response[2..] else response
  }

  /** Remember an answer; an overfull cache is emptied first. */
  function AfterStore(c: Entries, key: seq<Byte>, response: seq<Byte>, now: int): Entries {
    (if |c| > LIMIT then map[] else c)[key := Entry(response, now + TTL)]
  }

  class Cache {
    var entries: Entries

    constructor ()
      ensures entries == map[]
    {
      entries := map[];
    }

    /** Serve a query from the cache. */
    method Lookup(server: Server, query: seq<Byte>, now: int) returns (reply: Option<seq<Byte>>)
      modifies this`entries
      ensures entries == AfterFind(old(entries), Key(server, query), now)
      ensures match Find(old(entries), Key(server, query), now)
              case None => reply == None
              case Some(response) => reply == Some(Restamp(response, query))
    {
      var key := Key(server, query);
      if key in entries {
        var entry := entries[key];
        if entry.expiry > now {
          var response := entry.response;
          if |response| >= 2 && |query| >= 2 {
            response := response[0 := query[0]];
            response := response[1 := query[1]];
            assert response == query[..2] + entry.response[2..];
          }
          return Some(response);
        }
        entries := entries - {key};
      }
      return None;
    }

    /** Record the upstream answer to a query that missed. */
    method Store(server: Server, query: seq<Byte>, response: seq<Byte>, now: int)
      modifies this`entries
      ensures entries == AfterStore(old(entries), Key(server, query), response, now)
    {
      if |entries| > LIMIT {
        entries := map[];
      }
      entries := entries[Key(server, query) := Entry(response, now + TTL)];
    }
  }

  // ---- runs ----------------------------------------------------------------------------------

  /** What a direct lookup at a given time answers. */
  type Resolver = (int, Server, seq<Byte>) -> seq<Byte>

  /** A query arrives and is looked up; or an upstream answer to a query that missed arrives. */
  datatype Event = Ask(server: Server, query: seq<Byte>, now: int) | Answered(server: Server, query: seq<Byte>, now: int)

  datatype Reply = Reply(server: Server, query: seq<Byte>, bytes: seq<Byte>, now: int)

  /** The cache after an event, and the reply sent, if any. */
  function Step(c: Entries, e: Event, resolve: Resolver): (Entries, Option<Reply>) {
    var key := Key(e.server, e.query);
    match e
    case Ask(server, query, now) =>
      var reply := match Find(c, key, now)
        case None => None
        case Some(response) => Some(Reply(server, query, Restamp(response, query), now));
      (AfterFind(c, key, now), reply)
    case Answered(server, query, now) =>
      var response := resolve(now, server, query);
      (AfterStore(c, key, response, now), Some(Reply(server, query, response, now)))
  }

  ghost predicate StepsTo(c: Entries, e: Event, resolve: Resolver, d: Entries) {
    d == Step(c, e, resolve).0
  }

  /** A run: time does not go back. */
  ghost predicate IsRun(states: seq<Entries>, events: seq<Event>, resolve: Resolver) {
    && |states| == |events| + 1 && states[0] == map[]
    && (forall i, j :: 0 <= i < j < |events| ==> events[i].now <= events[j].now)
    && (forall i :: 0 <= i < |events| ==> StepsTo(states[i], events[i], resolve, states[i + 1]))
  }

  /** At any moment the resolver echoes the transaction id, and its answer otherwise depends only on
      the server and the rest of the query. */
  ghost predicate EchoesId(resolve: Resolver) {
    forall t, server, q, r :: |q| >= 2 && |r| >= 2 && q[2..] == r[2..] ==>
      |resolve(t, server, r)| >= 2 && resolve(t, server, q) == q[..2] + resolve(t, server, r)[2..]
  }

  /** A resolver that returns every query unchanged. */
  const ECHO: Resolver := (t, server, q) => q

  lemma EchoEchoes()
    ensures EchoesId(ECHO)
  {
  }

  lemma KeyServer(s: Server, q: seq<Byte>, t: Server, r: seq<Byte>)
    requires Key(s, q) == Key(t, r)
    ensures s == t
  {
    assert s == Key(s, q)[..4] && t == Key(t, r)[..4];
  }

  /** Queries with an id share a key exactly if they ask the same server the same question. */
  lemma KeyInjective(s: Server, q: seq<Byte>, t: Server, r: seq<Byte>)
    requires |q| >= 2 && |r| >= 2
    ensures Key(s, q) == Key(t, r) <==> s == t && q[2..] == r[2..]
  {
    if Key(s, q) == Key(t, r) {
      KeyServer(s, q, t, r);
      assert q[2..] == Key(s, q)[4..] && r[2..] == Key(t, r)[4..];
    }
  }

  /** One query may be answered with the other's answer: both have an id, or they are the same. */
  predicate Interchangeable(q: seq<Byte>, r: seq<Byte>) {
    (|q| >= 2 && |r| >= 2) || q == r
  }

  /** An entry is what this event, an upstream answer to a query with that key, stored. */
  ghost predicate StoredBy(key: seq<Byte>, entry: Entry, e: Event, resolve: Resolver) {
    e.Answered? && key == Key(e.server, e.query) && entry == Entry(resolve(e.now, e.server, e.query), e.now + TTL)
  }

  /** Every entry was stored by one of the first n events. */
  ghost predicate Sound(c: Entries, events: seq<Event>, n: nat, resolve: Resolver)
    requires n <= |events|
  {
    forall key :: key in c ==> exists m :: 0 <= m < n && StoredBy(key, c[key], events[m], resolve)
  }

  lemma StepKeepsSound(c: Entries, events: seq<Event>, n: nat, resolve: Resolver)
    requires n < |events| && Sound(c, events, n, resolve)
    ensures Sound(Step(c, events[n], resolve).0, events, n + 1, resolve)
  {
    var e := events[n];
    var d, key := Step(c, e, resolve).0, Key(e.server, e.query);
    forall k | k in d ensures exists m :: 0 <= m < n + 1 && StoredBy(k, d[k], events[m], resolve) {
      if e.Answered? && k == key {
        assert StoredBy(k, d[k], events[n], resolve);
      } else {
        var m :| 0 <= m < n && StoredBy(k, c[k], events[m], resolve);
        assert StoredBy(k, d[k], events[m], resolve);
      }
    }
  }

  lemma {:induction false} AlwaysSound(states: seq<Entries>, events: seq<Event>, resolve: Resolver, n: nat)
    requires IsRun(states, events, resolve) && n <= |events|
    ensures Sound(states[n], events, n, resolve)
  {
    if n > 0 {
      AlwaysSound(states, events, resolve, n - 1);
      assert StepsTo(states[n - 1], events[n - 1], resolve, states[n]);
      StepKeepsSound(states[n - 1], events, n - 1, resolve);
    }
  }

  lemma RestampedIsLookup(server: Server, q: seq<Byte>, r: seq<Byte>, t: int, resolve: Resolver)
    requires EchoesId(resolve) && Key(server, q) == Key(server, r) && Interchangeable(q, r)
    ensures Restamp(resolve(t, server, r), q) == resolve(t, server, q)
  {
    if |q| >= 2 && |r| >= 2 {
      KeyInjective(server, q, server, r);
      assert resolve(t, server, q) == q[..2] + resolve(t, server, r)[2..];
    }
  }

  /** A reply comes from the upstream answer of event e: one to a query with the same key, less than
      sixty seconds old, passed on as it came or with the asking query's id; and if the two queries are
      interchangeable it is what a direct lookup of the asking query gave at that time. */
  ghost predicate FreshFrom(r: Reply, e: Event, resolve: Resolver) {
    && e.Answered? && e.server == r.server && Key(e.server, e.query) == Key(r.server, r.query)
    && r.now - TTL < e.now <= r.now
    && (r.bytes == resolve(e.now, e.server, e.query) || r.bytes == Restamp(resolve(e.now, e.server, e.query), r.query))
    && (Interchangeable(r.query, e.query) ==> r.bytes == resolve(e.now, r.server, r.query))
  }

  lemma HitIsLookup(c: Entries, ask: Event, e: Event, resolve: Resolver)
    requires EchoesId(resolve) && ask.Ask? && e.now <= ask.now
    requires var key := Key(ask.server, ask.query);
             Find(c, key, ask.now).Some? && StoredBy(key, c[key], e, resolve)
    ensures FreshFrom(Step(c, ask, resolve).1.value, e, resolve)
  {
    KeyServer(ask.server, ask.query, e.server, e.query);
    if Interchangeable(ask.query, e.query) { RestampedIsLookup(ask.server, ask.query, e.query, e.now, resolve); }
  }

  /** The cache is transparent: across any sequence of hits, misses, expiries and clears, every reply
      comes from an upstream answer that arrived in the run, less than sixty seconds before; and it is
      exactly the answer to a direct lookup of that very query, transaction id included, whenever the
      two queries are interchangeable. */
  lemma RepliesAreFreshLookups(states: seq<Entries>, events: seq<Event>, resolve: Resolver, n: nat)
    requires IsRun(states, events, resolve) && EchoesId(resolve)
    requires n < |events| && Step(states[n], events[n], resolve).1.Some?
    ensures exists m :: 0 <= m <= n && FreshFrom(Step(states[n], events[n], resolve).1.value, events[m], resolve)
  {
    var c, e := states[n], events[n];
    if e.Ask? {
      var key := Key(e.server, e.query);
      AlwaysSound(states, events, resolve, n);
      var m :| 0 <= m < n && StoredBy(key, c[key], events[m], resolve);
      HitIsLookup(c, e, events[m], resolve);
    } else {
      assert FreshFrom(Step(c, e, resolve).1.value, events[n], resolve);
    }
  }

  /** Looking up costs an entry only if it is the one asked for and has expired. */
  lemma FindTouches(c: Entries, key: seq<Byte>, now: int, other: seq<Byte>)
    ensures var d := AfterFind(c, key, now);
            && (other in d <==> other in c && (other != key || Find(c, key, now).Some?)) && (other in d ==> d[other] == c[other])
  {
  }

  /** Storing replaces the entry of that key and, below the limit, leaves every other one alone; above it
      they all go. */
  lemma StoreTouches(c: Entries, key: seq<Byte>, response: seq<Byte>, now: int, other: seq<Byte>)
    requires other != key
    ensures var d := AfterStore(c, key, response, now);
            && Find(d, key, now) == Some(response)
            && (other in d <==> other in c && |c| <= LIMIT) && (other in d ==> d[other] == c[other])
  {
  }

  /** Between two events nothing happened that could cost the entry of a key: no other answer with that key
      and no store into an overfull cache. */
  ghost predicate Undisturbed(states: seq<Entries>, events: seq<Event>, key: seq<Byte>, from: nat, to: nat)
    requires |states| > |events| >= to
  {
    forall i :: from <= i < to && events[i].Answered? ==> Key(events[i].server, events[i].query) != key && |states[i]| <= LIMIT
  }

  lemma {:induction false} EntryStays(states: seq<Entries>, events: seq<Event>, resolve: Resolver, key: seq<Byte>, m: nat, n: nat)
    requires IsRun(states, events, resolve) && m < n <= |events|
    requires events[m].Answered? && Key(events[m].server, events[m].query) == key
    requires Undisturbed(states, events, key, m + 1, n)
    requires forall i :: m < i < n ==> events[i].now < events[m].now + TTL
    ensures key in states[n] && StoredBy(key, states[n][key], events[m], resolve)
    decreases n
  {
    assert StepsTo(states[n - 1], events[n - 1], resolve, states[n]);
    if m + 1 < n { EntryStays(states, events, resolve, key, m, n - 1); }
  }

  /** The cache works: a query is answered from the cache for sixty seconds after the answer to one with
      its key arrived, unless another took its place or the cache overflowed. */
  lemma AnsweredFromCache(states: seq<Entries>, events: seq<Event>, resolve: Resolver, m: nat, n: nat)
    requires IsRun(states, events, resolve) && m < n < |events| && events[m].Answered? && events[n].Ask?
    requires Key(events[n].server, events[n].query) == Key(events[m].server, events[m].query)
    requires events[n].now < events[m].now + TTL
    requires Undisturbed(states, events, Key(events[m].server, events[m].query), m + 1, n)
    ensures var e := events[m];
            var ask := events[n];
            Step(states[n], ask, resolve).1 ==
            Some(Reply(ask.server, ask.query, Restamp(resolve(e.now, e.server, e.query), ask.query), ask.now))
  {
    EntryStays(states, events, resolve, Key(events[m].server, events[m].query), m, n);
  }

  /** An answer is passed on as it came, and for sixty seconds the same query, asked again, gets the same
      bytes without going upstream. */
  lemma RepeatGetsSame(c: Entries, server: Server, q: seq<Byte>, now: int, later: int, resolve: Resolver)
    requires EchoesId(resolve) && later < now + TTL
    ensures var (d, reply) := Step(c, Answered(server, q, now), resolve);
            && reply == Some(Reply(server, q, resolve(now, server, q), now))
            && Step(d, Ask(server, q, later), resolve) == (d, Some(Reply(server, q, resolve(now, server, q), later)))
  {
    RestampedIsLookup(server, q, q, now, resolve);
  }

  /** The reply to `q` when the answer to `r` has just been stored. */
  function HitAfter(server: Server, q: seq<Byte>, r: seq<Byte>, t: int, resolve: Resolver): Option<Reply> {
    Step(Step(map[], Answered(server, r, t), resolve).0, Ask(server, q, t), resolve).1
  }

  lemma HitAfterStore(server: Server, q: seq<Byte>, r: seq<Byte>, t: int, resolve: Resolver)
    requires Key(server, q) == Key(server, r)
    ensures HitAfter(server, q, r, t, resolve) == Some(Reply(server, q, Restamp(resolve(t, server, r), q), t))
  {
  }

  /** The exact condition: two queries that share a key get the right answer from each other's entry,
      whatever the resolver, if and only if both have an id or they are the same. */
  lemma TransparentExactly(server: Server, q: seq<Byte>, r: seq<Byte>, t: int)
    requires Key(server, q) == Key(server, r)
    ensures Interchangeable(q, r) <==>
      forall resolve :: EchoesId(resolve) ==>
        HitAfter(server, q, r, t, resolve) == Some(Reply(server, q, resolve(t, server, q), t))
  {
    if Interchangeable(q, r) {
      forall resolve | EchoesId(resolve)
        ensures HitAfter(server, q, r, t, resolve) == Some(Reply(server, q, resolve(t, server, q), t))
      {
        HitAfterStore(server, q, r, t, resolve);
        RestampedIsLookup(server, q, r, t, resolve);
      }
    } else {
      EchoEchoes();
      HitAfterStore(server, q, r, t, ECHO);
      assert Restamp(ECHO(t, server, r), q) != ECHO(t, server, q);
    }
  }

  /** So a query too short to carry an id, which shares the slot of the id-only query, is answered with
      that query's id. */
  lemma ShortQueryGetsAnotherId(server: Server, t: int)
    ensures HitAfter(server, [5], [7, 9], t, ECHO) == Some(Reply(server, [5], [7, 9], t))
    ensures ECHO(t, server, [5]) == [5]
  {
    HitAfterStore(server, [5], [7, 9], t, ECHO);
  }
}
