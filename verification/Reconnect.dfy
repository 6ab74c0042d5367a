/** The WireGuard and masque-in-masque reconnect loops as state machines. */
module WireguardLoop {
  import opened Bytes

  const MAX_FAILS := 2

  /** An endpoint address. */
  type Peer = nat

  /** What the world answers in one turn: the clock at its start, whether the last good endpoint still
      verifies, whether a pinned endpoint passes, and the scan. */
  datatype Turn = Turn(now: int, verifies: bool, pinPasses: bool, hunt: set<Peer> -> Option<Peer>)

  datatype Attempt = Attempt(peer: Peer, now: int)
  datatype Cooling = Cooling(peer: Peer, until: int)

  /** The loop's variables, then the tunnels attempted and the cooldowns imposed so far; each attempt
      remembers how many cooldowns preceded it. */
  datatype Loop = Loop(lastGood: Option<Peer>, fails: nat, cooldowns: map<Peer, int>, quick: Option<Peer>,
                       attempts: seq<Attempt>, coolings: seq<Cooling>, preceding: seq<nat>)

  function Start(quick: Option<Peer>): Loop {
    Loop(None, 0, map[], quick, [], [], [])
  }

  /** Drop expired cooldowns, then exclude an endpoint that failed too often. */
  function Cool(s: Loop, now: int, cooldown: int): Loop {
    var kept := map p | p in s.cooldowns && s.cooldowns[p] > now :: s.cooldowns[p];
    if s.fails < MAX_FAILS then s.(cooldowns := kept)
    else match s.lastGood
      case None => s.(cooldowns := kept, fails := 0)
      case Some(p) => s.(cooldowns := kept[p := now + cooldown], fails := 0, lastGood := None,
                         coolings := s.coolings + [Cooling(p, now + cooldown)])
  }

  /** The endpoint for this turn: the verified quick one once, the last good one while it verifies, the
      pin while it passes, else a scan that excludes the cooling ones. */
  function Choose(s: Loop, t: Turn, forced: Option<Peer>): Option<Peer> {
    if s.quick.Some? then s.quick
    else if s.lastGood.Some? && t.verifies then s.lastGood
    else if forced.Some? && t.pinPasses then forced
    else t.hunt(s.cooldowns.Keys)
  }

  /** Every tunnel ends sooner or later, and counts against its endpoint. */
  function Tunnel(s: Loop, p: Peer, now: int): Loop {
    var fails := if s.lastGood == Some(p) then s.fails else 0;
    s.(quick := None, lastGood := Some(p), fails := fails + 1,
       attempts := s.attempts + [Attempt(p, now)], preceding := s.preceding + [|s.coolings|])
  }

  function TurnStep(s: Loop, t: Turn, forced: Option<Peer>, cooldown: int): Loop {
    var c := Cool(s, t.now, cooldown);
    match Choose(c, t, forced)
    case None => c.(quick := None)
    case Some(p) => Tunnel(c, p, t.now)
  }

  /** A scan never returns an endpoint it was told to exclude. */
  ghost predicate Honours(hunt: set<Peer> -> Option<Peer>) {
    forall excluded :: hunt(excluded).Some? ==> hunt(excluded).value !in excluded
  }

  ghost predicate ValidTurns(turns: seq<Turn>) {
    && (forall i :: 0 <= i < |turns| ==> Honours(turns[i].hunt))
    && (forall i, j :: 0 <= i < j < |turns| ==> turns[i].now <= turns[j].now)
  }

  ghost function Run(turns: seq<Turn>, quick: Option<Peer>, forced: Option<Peer>, cooldown: int): Loop {
    if turns == [] then Start(quick)
    else
      var n := |turns| - 1;
      TurnStep(Run(turns[..n], quick, forced, cooldown), turns[n], forced, cooldown)
  }

  /** The loop's variables, updated in place. */
  class Reconnector {
    var lastGood: Option<Peer>
    var fails: nat
    var cooldowns: map<Peer, int>
    var quick: Option<Peer>
    ghost var attempts: seq<Attempt>
    ghost var coolings: seq<Cooling>
    ghost var preceding: seq<nat>

    const forced: Option<Peer>
    const cooldown: int

    ghost function Abs(): Loop
      reads this
    {
      Loop(lastGood, fails, cooldowns, quick, attempts, coolings, preceding)
    }

    constructor (quick: Option<Peer>, forced: Option<Peer>, cooldown: int)
      ensures Abs() == Start(quick) && this.forced == forced && this.cooldown == cooldown
    {
      this.lastGood, this.fails, this.cooldowns, this.quick := None, 0, map[], quick;
      this.attempts, this.coolings, this.preceding := [], [], [];
      this.forced, this.cooldown := forced, cooldown;
    }

    method CoolDown(now: int)
      modifies this`lastGood, this`fails, this`cooldowns, this`coolings
      ensures Abs() == Cool(old(Abs()), now, cooldown)
    {
      cooldowns := map p | p in cooldowns && cooldowns[p] > now :: cooldowns[p];
      if fails >= MAX_FAILS {
        if lastGood.Some? {
          cooldowns := cooldowns[lastGood.value := now + cooldown];
          coolings := coolings + [Cooling(lastGood.value, now + cooldown)];
          lastGood := None;
        }
        fails := 0;
      }
    }

    method Pick(t: Turn) returns (peer: Option<Peer>)
      modifies this`quick
      ensures peer == Choose(old(Abs()), t, forced) && Abs() == old(Abs()).(quick := None)
    {
      if quick.Some? {
        peer := quick;
        quick := None;
      } else if lastGood.Some? && t.verifies {
        peer := lastGood;
      } else if forced.Some? && t.pinPasses {
        peer := forced;
      } else {
        peer := t.hunt(cooldowns.Keys);
      }
    }

    /** One pass of the loop. */
    method Iterate(t: Turn)
      modifies this
      ensures Abs() == TurnStep(old(Abs()), t, forced, cooldown)
    {
      CoolDown(t.now);
      var peer := Pick(t);
      if peer.Some? {
        if lastGood != peer { fails := 0; }
        lastGood := peer;
        preceding := preceding + [|coolings|];
        attempts := attempts + [Attempt(peer.value, t.now)];
        fails := fails + 1;
      }
    }

    /** The loop itself, over the turns a caller lives through. */
    method RunLoop(turns: seq<Turn>, ghost quick0: Option<Peer>)
      requires Abs() == Start(quick0)
      modifies this
      ensures Abs() == Run(turns, quick0, forced, cooldown)
    {
      var i := 0;
      while i < |turns|
        invariant i <= |turns| && Abs() == Run(turns[..i], quick0, forced, cooldown)
      {
        assert turns[..i + 1] == turns[..i] + [turns[i]];
        RunSnoc(turns[..i], turns[i], quick0, forced, cooldown);
        Iterate(turns[i]);
        i := i + 1;
      }
      assert turns[..|turns|] == turns;
    }
  }

  lemma RunSnoc(turns: seq<Turn>, t: Turn, quick: Option<Peer>, forced: Option<Peer>, cooldown: int)
    ensures Run(turns + [t], quick, forced, cooldown) == TurnStep(Run(turns, quick, forced, cooldown), t, forced, cooldown)
  {
    assert (turns + [t])[..|turns|] == turns;
  }

  // ---- safety over whole runs ----------------------------------------------------------------

  /** An attempt made while a cooldown imposed on that endpoint had not elapsed. */
  ghost predicate Premature(s: Loop, i: nat)
    requires i < |s.attempts| == |s.preceding|
  {
    exists k: nat :: k < s.preceding[i] && k < |s.coolings|
      && s.coolings[k].peer == s.attempts[i].peer && s.coolings[k].until > s.attempts[i].now
  }

  /** Cooldowns in force at `now` are in the table. */
  ghost predicate TableComplete(s: Loop, now: int) {
    forall k :: 0 <= k < |s.coolings| && s.coolings[k].until > now ==>
      s.coolings[k].peer in s.cooldowns && s.cooldowns[s.coolings[k].peer] >= s.coolings[k].until
  }

  ghost predicate Shape(s: Loop) {
    && |s.preceding| == |s.attempts| && s.fails <= MAX_FAILS
    && (forall i :: 0 <= i < |s.attempts| ==> s.preceding[i] <= |s.coolings|)
  }

  /** The last good endpoint is not cooling. */
  ghost predicate LastGoodFree(s: Loop, now: int, forced: Option<Peer>) {
    s.lastGood.Some? && s.lastGood != forced ==>
      forall k :: 0 <= k < |s.coolings| && s.coolings[k].peer == s.lastGood.value ==> s.coolings[k].until <= now
  }

  ghost predicate CoolInv(s: Loop, now: int, forced: Option<Peer>, cooldown: int) {
    && (forall k :: 0 <= k < |s.coolings| ==> s.coolings[k].until <= now + cooldown)
    && Shape(s) && TableComplete(s, now) && LastGoodFree(s, now, forced)
    && (s.quick.Some? ==> s.coolings == [])
    && (forall i :: 0 <= i < |s.attempts| && Some(s.attempts[i].peer) != forced ==> !Premature(s, i))
  }

  lemma PrematureStable(s: Loop, t: Loop, i: nat)
    requires Shape(s) && Shape(t) && i < |s.attempts|
    requires s.attempts <= t.attempts && s.preceding <= t.preceding && s.coolings <= t.coolings
    ensures Premature(t, i) ==> Premature(s, i)
  {
    if Premature(t, i) {
      var k: nat :| k < t.preceding[i] && k < |t.coolings|
        && t.coolings[k].peer == t.attempts[i].peer && t.coolings[k].until > t.attempts[i].now;
      assert k < s.preceding[i] && s.coolings[k] == t.coolings[k];
    }
  }

  lemma CoolKeeps(s: Loop, before: int, now: int, forced: Option<Peer>, cooldown: int)
    requires CoolInv(s, before, forced, cooldown) && before <= now && cooldown > 0
    requires s.quick.Some? ==> s.fails == 0
    ensures var c := Cool(s, now, cooldown);
            CoolInv(c, now, forced, cooldown) && c.fails < MAX_FAILS
  {
    var c := Cool(s, now, cooldown);
    forall i | 0 <= i < |c.attempts| && Some(c.attempts[i].peer) != forced
      ensures !Premature(c, i)
    {
      PrematureStable(s, c, i);
    }
  }

  lemma TunnelKeeps(c: Loop, p: Peer, now: int, forced: Option<Peer>, cooldown: int)
    requires CoolInv(c, now, forced, cooldown) && c.fails < MAX_FAILS
    requires Some(p) != forced ==>
               forall k :: 0 <= k < |c.coolings| && c.coolings[k].peer == p ==> c.coolings[k].until <= now
    ensures CoolInv(Tunnel(c, p, now), now, forced, cooldown)
  {
    var t := Tunnel(c, p, now);
    forall i | 0 <= i < |t.attempts| && Some(t.attempts[i].peer) != forced
      ensures !Premature(t, i)
    {
      if i < |c.attempts| {
        PrematureStable(c, t, i);
      }
    }
  }

  /** Whatever is chosen, other than the pin, is not cooling. */
  lemma ChoiceIsFree(c: Loop, t: Turn, forced: Option<Peer>, cooldown: int)
    requires CoolInv(c, t.now, forced, cooldown) && Honours(t.hunt)
    ensures var choice := Choose(c, t, forced);
            choice.Some? && choice != forced ==>
              forall k :: 0 <= k < |c.coolings| && c.coolings[k].peer == choice.value ==> c.coolings[k].until <= t.now
  {
  }

  lemma StepKeepsCool(s: Loop, before: int, t: Turn, forced: Option<Peer>, cooldown: int)
    requires CoolInv(s, before, forced, cooldown) && before <= t.now && cooldown > 0 && Honours(t.hunt)
    requires s.quick.Some? ==> s.fails == 0
    ensures var r := TurnStep(s, t, forced, cooldown);
            CoolInv(r, t.now, forced, cooldown) && r.quick == None
  {
    CoolKeeps(s, before, t.now, forced, cooldown);
    var c := Cool(s, t.now, cooldown);
    var choice := Choose(c, t, forced);
    if choice.Some? {
      ChoiceIsFree(c, t, forced, cooldown);
      TunnelKeeps(c, choice.value, t.now, forced, cooldown);
    } else {
      var r := c.(quick := None);
      forall i | 0 <= i < |r.attempts|
        ensures Premature(r, i) <==> Premature(c, i)
      {
        PrematureStable(c, r, i);
        PrematureStable(r, c, i);
      }
    }
  }

  lemma {:induction false} RunKeepsCool(turns: seq<Turn>, quick: Option<Peer>, forced: Option<Peer>, cooldown: int, now: int)
    requires ValidTurns(turns) && cooldown > 0
    requires turns != [] ==> turns[|turns| - 1].now <= now
    ensures var s := Run(turns, quick, forced, cooldown);
            CoolInv(s, now, forced, cooldown) && (turns != [] ==> s.quick == None) && (turns == [] ==> s == Start(quick))
    decreases |turns|
  {
    if turns != [] {
      var n := |turns| - 1;
      var at := turns[n].now;
      RunKeepsCool(turns[..n], quick, forced, cooldown, at);
      StepKeepsCool(Run(turns[..n], quick, forced, cooldown), at, turns[n], forced, cooldown);
    }
  }

  /** No endpoint is tunnelled while its cooldown is running, except the pinned one; so in a run
      without a pin, none is. */
  lemma NoPrematureAttempt(turns: seq<Turn>, quick: Option<Peer>, forced: Option<Peer>, cooldown: int, i: nat)
    requires ValidTurns(turns) && cooldown > 0
    requires i < |Run(turns, quick, forced, cooldown).attempts|
    requires Some(Run(turns, quick, forced, cooldown).attempts[i].peer) != forced
    ensures var s := Run(turns, quick, forced, cooldown);
            |s.preceding| == |s.attempts| && !Premature(s, i)
  {
    RunKeepsCool(turns, quick, forced, cooldown, if turns == [] then 0 else turns[|turns| - 1].now);
  }

  /** Every cooldown in the table was imposed. */
  ghost predicate Backed(s: Loop) {
    forall p :: p in s.cooldowns ==> ImposedOn(s, p)
  }

  ghost predicate ImposedOn(s: Loop, p: Peer)
    requires p in s.cooldowns
  {
    exists k :: 0 <= k < |s.coolings| && s.coolings[k] == Cooling(p, s.cooldowns[p])
  }

  lemma CoolKeepsBacked(s: Loop, now: int, cooldown: int)
    requires Backed(s) && cooldown > 0
    ensures var c := Cool(s, now, cooldown);
            Backed(c) && forall p :: p in c.cooldowns ==> c.cooldowns[p] > now
  {
    var c := Cool(s, now, cooldown);
    forall p | p in c.cooldowns ensures ImposedOn(c, p) {
      if p in s.cooldowns && c.cooldowns[p] == s.cooldowns[p] {
        var k :| 0 <= k < |s.coolings| && s.coolings[k] == Cooling(p, s.cooldowns[p]);
        assert c.coolings[k] == Cooling(p, c.cooldowns[p]);
      } else {
        assert c.coolings[|s.coolings|] == Cooling(p, c.cooldowns[p]);
      }
    }
  }

  lemma StepKeepsBacked(s: Loop, t: Turn, forced: Option<Peer>, cooldown: int)
    requires Backed(s) && cooldown > 0
    ensures Backed(TurnStep(s, t, forced, cooldown))
  {
    CoolKeepsBacked(s, t.now, cooldown);
    var c, r := Cool(s, t.now, cooldown), TurnStep(s, t, forced, cooldown);
    forall p | p in r.cooldowns ensures ImposedOn(r, p) { assert ImposedOn(c, p); }
  }

  lemma {:induction false} RunKeepsBacked(turns: seq<Turn>, quick: Option<Peer>, forced: Option<Peer>, cooldown: int)
    requires cooldown > 0
    ensures Backed(Run(turns, quick, forced, cooldown))
    decreases |turns|
  {
    if turns != [] {
      var n := |turns| - 1;
      RunKeepsBacked(turns[..n], quick, forced, cooldown);
      StepKeepsBacked(Run(turns[..n], quick, forced, cooldown), turns[n], forced, cooldown);
    }
  }

  /** The attempt of a turn is premature exactly when it goes to the pin and the pin is cooling. */
  lemma TurnPrematureExactly(c: Loop, p: Peer, now: int, forced: Option<Peer>, cooldown: int)
    requires CoolInv(c, now, forced, cooldown) && Backed(c) && c.fails < MAX_FAILS
    requires forall q :: q in c.cooldowns ==> c.cooldowns[q] > now
    requires Some(p) != forced ==>
               forall k :: 0 <= k < |c.coolings| && c.coolings[k].peer == p ==> c.coolings[k].until <= now
    ensures var r := Tunnel(c, p, now);
            Shape(r) && (Premature(r, |c.attempts|) <==> forced == Some(p) && p in c.cooldowns)
  {
    var r, i := Tunnel(c, p, now), |c.attempts|;
    assert r.attempts[i] == Attempt(p, now) && r.preceding[i] == |c.coolings|;
    if forced == Some(p) && p in c.cooldowns {
      assert ImposedOn(c, p);
      var k :| 0 <= k < |c.coolings| && c.coolings[k] == Cooling(p, c.cooldowns[p]);
      assert r.coolings[k].peer == r.attempts[i].peer && r.coolings[k].until > r.attempts[i].now;
    }
  }

  /** In every run, a turn attempts an endpoint that is still cooling exactly when it chooses the pin
      while the pin is in the table of cooldowns. */
  lemma PrematureExactly(turns: seq<Turn>, t: Turn, quick: Option<Peer>, forced: Option<Peer>, cooldown: int)
    requires ValidTurns(turns + [t]) && cooldown > 0
    requires Choose(Cool(Run(turns, quick, forced, cooldown), t.now, cooldown), t, forced).Some?
    ensures var c := Cool(Run(turns, quick, forced, cooldown), t.now, cooldown);
            var r := Run(turns + [t], quick, forced, cooldown);
            && |r.attempts| == |c.attempts| + 1 == |r.preceding|
            && (Premature(r, |c.attempts|) <==> Choose(c, t, forced) == forced && forced.value in c.cooldowns)
  {
    var c := Ready(turns, t, quick, forced, cooldown);
    ReadyInv(turns, t, quick, forced, cooldown);
    var p := Choose(c, t, forced).value;
    ChoiceIsFree(c, t, forced, cooldown);
    TurnPrematureExactly(c, p, t.now, forced, cooldown);
    RunSnoc(turns, t, quick, forced, cooldown);
  }

  // ---- what is tried -------------------------------------------------------------------------

  /** The endpoints a scan is told to exclude are exactly those with a cooldown still running. */
  ghost predicate StillCooling(s: Loop, p: Peer, now: int) {
    exists k :: 0 <= k < |s.coolings| && s.coolings[k].peer == p && s.coolings[k].until > now
  }

  lemma ExcludesExactly(c: Loop, now: int, forced: Option<Peer>, cooldown: int, p: Peer)
    requires CoolInv(c, now, forced, cooldown) && Backed(c)
    requires forall q :: q in c.cooldowns ==> c.cooldowns[q] > now
    ensures p in c.cooldowns.Keys <==> StillCooling(c, p, now)
  {
    if p in c.cooldowns {
      assert ImposedOn(c, p);
      var k :| 0 <= k < |c.coolings| && c.coolings[k] == Cooling(p, c.cooldowns[p]);
      assert c.coolings[k].peer == p && c.coolings[k].until > now;
    }
  }

  /** The state in which a turn chooses. */
  ghost function Ready(turns: seq<Turn>, t: Turn, quick: Option<Peer>, forced: Option<Peer>, cooldown: int): Loop {
    Cool(Run(turns, quick, forced, cooldown), t.now, cooldown)
  }

  lemma ReadyInv(turns: seq<Turn>, t: Turn, quick: Option<Peer>, forced: Option<Peer>, cooldown: int)
    requires ValidTurns(turns + [t]) && cooldown > 0
    ensures var c := Ready(turns, t, quick, forced, cooldown);
            && CoolInv(c, t.now, forced, cooldown) && c.fails < MAX_FAILS && Backed(c)
            && (forall p :: p in c.cooldowns ==> c.cooldowns[p] > t.now)
            && Honours(t.hunt)
  {
    var s := Run(turns, quick, forced, cooldown);
    var all := turns + [t];
    assert all[..|turns|] == turns && all[|turns|] == t;
    assert CoolInv(s, t.now, forced, cooldown) && (s.quick.Some? ==> s.fails == 0) by {
      forall i, j | 0 <= i < j < |turns| ensures turns[i].now <= turns[j].now { assert all[i].now <= all[j].now; }
      forall i | 0 <= i < |turns| ensures Honours(turns[i].hunt) { assert all[i] == turns[i]; }
      assert turns != [] ==> all[|turns| - 1].now <= all[|turns|].now;
      RunKeepsCool(turns, quick, forced, cooldown, t.now);
    }
    assert CoolInv(Cool(s, t.now, cooldown), t.now, forced, cooldown) by { CoolKeeps(s, t.now, t.now, forced, cooldown); }
    RunKeepsBacked(turns, quick, forced, cooldown);
    CoolKeepsBacked(s, t.now, cooldown);
    assert Honours(all[|turns|].hunt);
  }

  /** What the next attempt is, given the attempts so far: the endpoint of the last one while its probe
      passes and it has failed only once since it was taken up or cooled; else the pin while its probe
      passes; else what the scan finds outside the endpoints still cooling. A second failure in a row is
      counted on the same endpoint only. */
  lemma NextAttempt(turns: seq<Turn>, t: Turn, quick: Option<Peer>, forced: Option<Peer>, cooldown: int)
    requires ValidTurns(turns + [t]) && cooldown > 0 && turns != []
    ensures var s, r, c := Run(turns, quick, forced, cooldown), Run(turns + [t], quick, forced, cooldown),
                           Ready(turns, t, quick, forced, cooldown);
            var choice :=
              if s.attempts != [] && s.fails == 1 && t.verifies then Some(s.attempts[|s.attempts| - 1].peer)
              else if forced.Some? && t.pinPasses then forced
              else t.hunt(c.cooldowns.Keys);
            && r.attempts == (if choice.Some? then s.attempts + [Attempt(choice.value, t.now)] else s.attempts)
            && (forall p :: p in c.cooldowns.Keys <==> StillCooling(c, p, t.now))
            && r.fails == (if choice.None? then (if s.fails == 2 then 0 else s.fails)
                           else if s.attempts != [] && s.fails == 1 && choice.value == s.attempts[|s.attempts| - 1].peer then 2
                           else 1)
  {
    var s, c := Run(turns, quick, forced, cooldown), Ready(turns, t, quick, forced, cooldown);
    RunSnoc(turns, t, quick, forced, cooldown);
    ReadyInv(turns, t, quick, forced, cooldown);
    forall p ensures p in c.cooldowns.Keys <==> StillCooling(c, p, t.now) { ExcludesExactly(c, t.now, forced, cooldown, p); }
    assert s.quick == None && StreakInv(s, cooldown) by {
      var all := turns + [t];
      forall i, j | 0 <= i < j < |turns| ensures turns[i].now <= turns[j].now { assert all[i].now <= all[j].now; }
      forall i | 0 <= i < |turns| ensures Honours(turns[i].hunt) { assert all[i] == turns[i]; }
      RunKeepsCool(turns, quick, forced, cooldown, turns[|turns| - 1].now);
      RunKeepsRow(turns, quick, forced, cooldown, turns[|turns| - 1].now);
    }
  }

  /** A verified quick start is the first attempt of its run. */
  lemma QuickStartFirst(t: Turn, p: Peer, forced: Option<Peer>, cooldown: int)
    ensures Run([] + [t], Some(p), forced, cooldown).attempts == [Attempt(p, t.now)]
  {
    RunSnoc([], t, Some(p), forced, cooldown);
  }

  /** Two failures in a row send the endpoint to cool down at the start of the next turn. */
  lemma TwoFailuresCool(turns: seq<Turn>, t: Turn, quick: Option<Peer>, forced: Option<Peer>, cooldown: int)
    requires ValidTurns(turns + [t]) && cooldown > 0
    requires Run(turns, quick, forced, cooldown).fails == 2
    ensures var s, c := Run(turns, quick, forced, cooldown), Ready(turns, t, quick, forced, cooldown);
            && s.attempts != [] && c.fails == 0 && c.lastGood == None
            && c.coolings == s.coolings + [Cooling(s.attempts[|s.attempts| - 1].peer, t.now + cooldown)]
  {
    var all := turns + [t];
    forall i, j | 0 <= i < j < |turns| ensures turns[i].now <= turns[j].now { assert all[i].now <= all[j].now; }
    forall i | 0 <= i < |turns| ensures Honours(turns[i].hunt) { assert all[i] == turns[i]; }
    RunKeepsRow(turns, quick, forced, cooldown, if turns == [] then 0 else turns[|turns| - 1].now);
  }

  // ---- three in a row ------------------------------------------------------------------------

  ghost predicate Early(s: Loop, i: int) {
    0 <= i < |s.attempts| == |s.preceding| && Premature(s, i)
  }

  /** The counter is the length of the current streak, and a streak starts on another endpoint, after a
      cooldown, or early. */
  ghost predicate StreakInv(s: Loop, cooldown: int) {
    var n := |s.attempts|;
    && s.fails <= MAX_FAILS && s.fails <= n == |s.preceding|
    && (s.fails > 0 ==> s.lastGood.Some?)
    && (forall i :: n - s.fails <= i < n ==> Some(s.attempts[i].peer) == s.lastGood)
    && (0 < s.fails < n ==>
          || s.attempts[n - s.fails - 1].peer != s.attempts[n - s.fails].peer
          || s.attempts[n - s.fails].now >= s.attempts[n - s.fails - 1].now + cooldown
          || Early(s, n - s.fails))
    && (s.fails == 0 && n > 0 ==> s.lastGood == None && LastCooled(s, cooldown))
    && (s.attempts == [] ==> s.lastGood == None)
  }

  /** The endpoint of the last attempt was sent to cool down after it. */
  ghost predicate LastCooled(s: Loop, cooldown: int)
    requires s.attempts != []
  {
    var last := s.attempts[|s.attempts| - 1];
    exists k :: 0 <= k < |s.coolings| && s.coolings[k].peer == last.peer && s.coolings[k].until >= last.now + cooldown
  }

  /** Three attempts in a row from position i on are not on one endpoint, or span a cooldown. */
  predicate SpacedAt(a: seq<Attempt>, i: nat, cooldown: int)
    requires i + 2 < |a|
  {
    a[i].peer == a[i + 1].peer == a[i + 2].peer ==> a[i + 2].now >= a[i].now + cooldown
  }

  ghost predicate TripleAt(s: Loop, i: nat, cooldown: int)
    requires i + 2 < |s.attempts|
  {
    SpacedAt(s.attempts, i, cooldown) || Early(s, i + 1) || Early(s, i + 2)
  }

  ghost predicate NoTriple(s: Loop, cooldown: int) {
    forall i :: 0 <= i < |s.attempts| - 2 ==> TripleAt(s, i, cooldown)
  }

  /** Attempts are in time order. */
  ghost predicate Ordered(attempts: seq<Attempt>, now: int) {
    && (forall i :: 0 <= i < |attempts| ==> attempts[i].now <= now)
    && (forall i, j :: 0 <= i < j < |attempts| ==> attempts[i].now <= attempts[j].now)
  }

  ghost predicate RowInv(s: Loop, now: int, cooldown: int) {
    StreakInv(s, cooldown) && NoTriple(s, cooldown) && Ordered(s.attempts, now)
  }

  lemma EarlyStays(s: Loop, t: Loop, i: int)
    requires |t.attempts| == |t.preceding|
    requires s.attempts <= t.attempts && s.preceding <= t.preceding && s.coolings <= t.coolings
    ensures Early(s, i) ==> Early(t, i)
  {
    if Early(s, i) {
      var k: nat :| k < s.preceding[i] && k < |s.coolings|
        && s.coolings[k].peer == s.attempts[i].peer && s.coolings[k].until > s.attempts[i].now;
      assert t.coolings[k] == s.coolings[k] && t.attempts[i] == s.attempts[i] && t.preceding[i] == s.preceding[i];
    }
  }

  lemma TriplesStay(s: Loop, t: Loop, cooldown: int)
    requires NoTriple(s, cooldown) && |t.attempts| == |t.preceding|
    requires s.attempts <= t.attempts && s.preceding <= t.preceding && s.coolings <= t.coolings
    ensures forall i :: 0 <= i < |s.attempts| - 2 ==> TripleAt(t, i, cooldown)
  {
    forall i | 0 <= i < |s.attempts| - 2 ensures TripleAt(t, i, cooldown) {
      assert TripleAt(s, i, cooldown);
      EarlyStays(s, t, i + 1);
      EarlyStays(s, t, i + 2);
    }
  }

  lemma CoolKeepsRow(s: Loop, before: int, now: int, cooldown: int)
    requires RowInv(s, before, cooldown) && before <= now && cooldown > 0
    ensures RowInv(Cool(s, now, cooldown), now, cooldown)
    ensures Cool(s, now, cooldown).fails < MAX_FAILS
  {
    var c, n := Cool(s, now, cooldown), |s.attempts|;
    assert NoTriple(c, cooldown) by { TriplesStay(s, c, cooldown); }
    if s.fails >= MAX_FAILS {
      var k := |s.coolings|;
      assert c.coolings[k].peer == s.attempts[n - 1].peer && c.coolings[k].until >= s.attempts[n - 1].now + cooldown;
    } else {
      EarlyStays(s, c, n - s.fails);
    }
  }

  lemma TunnelKeepsStreak(c: Loop, p: Peer, now: int, cooldown: int)
    requires StreakInv(c, cooldown) && c.fails < MAX_FAILS
    ensures StreakInv(Tunnel(c, p, now), cooldown)
  {
    var t, n := Tunnel(c, p, now), |c.attempts|;
    assert t.attempts[..n] == c.attempts && t.attempts[n] == Attempt(p, now) && t.preceding[n] == |c.coolings|;
    if c.fails == 0 && n > 0 && c.attempts[n - 1].peer == p {
      var last := c.attempts[n - 1];
      var k :| 0 <= k < |c.coolings| && c.coolings[k].peer == last.peer && c.coolings[k].until >= last.now + cooldown;
      if now < last.now + cooldown {
        assert t.coolings[k].peer == t.attempts[n].peer && t.coolings[k].until > t.attempts[n].now;
        assert Early(t, n);
      }
    } else {
      EarlyStays(c, t, n - c.fails);
    }
  }

  lemma StreakHasNoTriple(t: Loop, now: int, cooldown: int)
    requires StreakInv(t, cooldown) && t.fails > 0 && Ordered(t.attempts, now)
    requires |t.attempts| >= 3
    ensures TripleAt(t, |t.attempts| - 3, cooldown)
  {
    var a, i := t.attempts, |t.attempts| - 3;
    assert a[i].now <= a[i + 1].now <= a[i + 2].now;
  }

  lemma TunnelKeepsRow(c: Loop, p: Peer, now: int, cooldown: int)
    requires RowInv(c, now, cooldown) && c.fails < MAX_FAILS && cooldown > 0
    ensures RowInv(Tunnel(c, p, now), now, cooldown)
  {
    var t := Tunnel(c, p, now);
    assert StreakInv(t, cooldown) by { TunnelKeepsStreak(c, p, now, cooldown); }
    assert Ordered(t.attempts, now);
    assert NoTriple(t, cooldown) by {
      TriplesStay(c, t, cooldown);
      if |t.attempts| >= 3 { StreakHasNoTriple(t, now, cooldown); }
    }
  }

  lemma StepKeepsRow(s: Loop, t: Turn, forced: Option<Peer>, cooldown: int)
    requires RowInv(s, t.now, cooldown) && cooldown > 0
    ensures RowInv(TurnStep(s, t, forced, cooldown), t.now, cooldown)
  {
    var c := Cool(s, t.now, cooldown);
    assert RowInv(c, t.now, cooldown) && c.fails < MAX_FAILS by { CoolKeepsRow(s, t.now, t.now, cooldown); }
    var choice := Choose(c, t, forced);
    if choice.Some? {
      assert RowInv(Tunnel(c, choice.value, t.now), t.now, cooldown) by {
        TunnelKeepsRow(c, choice.value, t.now, cooldown);
      }
    } else {
      QuickKeepsRow(c, t.now, cooldown);
    }
  }

  lemma QuickKeepsRow(c: Loop, now: int, cooldown: int)
    requires RowInv(c, now, cooldown)
    ensures RowInv(c.(quick := None), now, cooldown)
  {
    var r := c.(quick := None);
    TriplesStay(c, r, cooldown);
    EarlyStays(c, r, |c.attempts| - c.fails);
  }

  lemma RowLater(s: Loop, now: int, later: int, cooldown: int)
    requires RowInv(s, now, cooldown) && now <= later
    ensures RowInv(s, later, cooldown)
  {
  }

  lemma {:induction false} RunKeepsRow(turns: seq<Turn>, quick: Option<Peer>, forced: Option<Peer>, cooldown: int, now: int)
    requires ValidTurns(turns) && cooldown > 0
    requires turns != [] ==> turns[|turns| - 1].now <= now
    ensures RowInv(Run(turns, quick, forced, cooldown), now, cooldown)
    decreases |turns|
  {
    if turns != [] {
      var n := |turns| - 1;
      var s, at := Run(turns[..n], quick, forced, cooldown), turns[n].now;
      assert RowInv(s, at, cooldown) by { RunKeepsRow(turns[..n], quick, forced, cooldown, at); }
      assert RowInv(TurnStep(s, turns[n], forced, cooldown), at, cooldown) by { StepKeepsRow(s, turns[n], forced, cooldown); }
      RowLater(TurnStep(s, turns[n], forced, cooldown), at, now, cooldown);
    }
  }

  /** In every run, three consecutive attempts on one endpoint span at least a cooldown, or one of the
      last two was premature. */
  lemma TripleIsSpacedOrEarly(turns: seq<Turn>, quick: Option<Peer>, forced: Option<Peer>, cooldown: int, i: nat)
    requires ValidTurns(turns) && cooldown > 0
    requires i + 2 < |Run(turns, quick, forced, cooldown).attempts|
    ensures TripleAt(Run(turns, quick, forced, cooldown), i, cooldown)
  {
    RunKeepsRow(turns, quick, forced, cooldown, if turns == [] then 0 else turns[|turns| - 1].now);
  }

  /** So on any endpoint but the pin they span at least a cooldown. */
  lemma ThreeInARowTakeACooldown(turns: seq<Turn>, quick: Option<Peer>, forced: Option<Peer>, cooldown: int, i: nat)
    requires ValidTurns(turns) && cooldown > 0
    requires i + 2 < |Run(turns, quick, forced, cooldown).attempts|
    requires Some(Run(turns, quick, forced, cooldown).attempts[i].peer) != forced
    ensures SpacedAt(Run(turns, quick, forced, cooldown).attempts, i, cooldown)
  {
    var a := Run(turns, quick, forced, cooldown).attempts;
    TripleIsSpacedOrEarly(turns, quick, forced, cooldown, i);
    if a[i].peer == a[i + 1].peer == a[i + 2].peer {
      NoPrematureAttempt(turns, quick, forced, cooldown, i + 1);
      NoPrematureAttempt(turns, quick, forced, cooldown, i + 2);
    }
  }

  lemma FirstPinTurn(pin: Peer, t: Turn)
    requires t.now == 0 && t.pinPasses
    ensures TurnStep(Start(None), t, Some(pin), 300) == Loop(Some(pin), 1, map[], None, [Attempt(pin, 0)], [], [0])
  {
    var c := Cool(Start(None), 0, 300);
    assert c == Start(None);
  }

  lemma SecondPinTurn(pin: Peer, t: Turn)
    requires t.now == 0 && t.pinPasses
    ensures var a := Attempt(pin, 0);
            TurnStep(Loop(Some(pin), 1, map[], None, [a], [], [0]), t, Some(pin), 300) ==
            Loop(Some(pin), 2, map[], None, [a, a], [], [0, 0])
  {
    var s := Loop(Some(pin), 1, map[], None, [Attempt(pin, 0)], [], [0]);
    assert Cool(s, 0, 300) == s;
  }

  lemma ThirdPinTurn(pin: Peer, t: Turn)
    requires t.now == 0 && t.pinPasses
    ensures var a := Attempt(pin, 0);
            TurnStep(Loop(Some(pin), 2, map[], None, [a, a], [], [0, 0]), t, Some(pin), 300) ==
            Loop(Some(pin), 1, map[pin := 300], None, [a, a, a], [Cooling(pin, 300)], [0, 0, 1])
  {
    var a := Attempt(pin, 0);
    var s := Loop(Some(pin), 2, map[], None, [a, a], [], [0, 0]);
    var c := Loop(None, 0, map[pin := 300], None, [a, a], [Cooling(pin, 300)], [0, 0]);
    assert Cool(s, 0, 300) == c;
    assert Tunnel(c, pin, 0).preceding == [0, 0, 1];
  }

  /** A pin that keeps passing its probe is tunnelled again while cooling, three times in a
      row. */
  lemma PinIgnoresCooldown(pin: Peer, t: Turn)
    requires t.now == 0 && t.verifies && t.pinPasses
    ensures var s := Run([] + [t] + [t] + [t], None, Some(pin), 300);
            var a := Attempt(pin, 0);
            s.attempts == [a, a, a] && s.preceding == [0, 0, 1] && Premature(s, 2)
  {
    var forced := Some(pin);
    RunSnoc([], t, None, forced, 300);
    RunSnoc([] + [t], t, None, forced, 300);
    RunSnoc([] + [t] + [t], t, None, forced, 300);
    var s1 := TurnStep(Start(None), t, forced, 300);
    assert s1 == Loop(Some(pin), 1, map[], None, [Attempt(pin, 0)], [], [0]) by { FirstPinTurn(pin, t); }
    var s2 := TurnStep(s1, t, forced, 300);
    assert s2 == Loop(Some(pin), 2, map[], None, [Attempt(pin, 0), Attempt(pin, 0)], [], [0, 0]) by { SecondPinTurn(pin, t); }
    var s := TurnStep(s2, t, forced, 300);
    ThirdPinTurn(pin, t);
    assert s.coolings[0].peer == s.attempts[2].peer && s.coolings[0].until > s.attempts[2].now;
  }
}

module MasqueInMasqueLoop {
  import opened Bytes

  const MAX_OUTER_FAILS := 2

  type Peer = nat

  /** How a session ended: after carrying traffic, by the outer hop's death, or by the inner's. */
  datatype Outcome = Ended(inner: Peer) | OuterFailed | InnerFailed

  /** What the world answers in one turn: a scan, whether any inner candidate is known, and the end of
      the session. */
  datatype Turn = Turn(scan: Option<Peer>, noInner: bool, outcome: Outcome)

  /** The loop's variables, then the successful scans and the outer failures so far; `returned` once
      the loop has given up for want of an inner candidate. */
  datatype Loop = Loop(lastPeer: Option<Peer>, cached: Option<Peer>, lastInner: Option<Peer>, outerFails: nat,
                       returned: bool, scans: nat, failures: nat)

  function Start(cached: Option<Peer>): Loop {
    Loop(None, cached, None, 0, false, 0, 0)
  }

  function KnownPeer(s: Loop): Option<Peer> {
    if s.outerFails >= MAX_OUTER_FAILS then None else if s.lastPeer.Some? then s.lastPeer else s.cached
  }

  /** One session with a chosen outer edge. */
  function Session(s: Loop, peer: Peer, t: Turn): Loop {
    var c := s.(lastPeer := Some(peer));
    if t.noInner then c.(returned := true)
    else match t.outcome
      case Ended(inner) => c.(lastInner := Some(inner), outerFails := 0)
      case OuterFailed => c.(outerFails := c.outerFails + 1, failures := c.failures + 1)
      case InnerFailed => c.(lastInner := None)
  }

  function TurnStep(s: Loop, t: Turn): Loop {
    if s.returned then s
    else
      var c := if s.outerFails >= MAX_OUTER_FAILS then s.(cached := None) else s;
      match KnownPeer(s)
      case Some(p) => Session(c, p, t)
      case None =>
        match t.scan
        case None => c
        case Some(p) => Session(c.(outerFails := 0, scans := c.scans + 1), p, t)
  }

  /** The loop's variables, updated in place. */
  class Reconnector {
    var lastPeer: Option<Peer>
    var cached: Option<Peer>
    var lastInner: Option<Peer>
    var outerFails: nat
    var returned: bool
    ghost var scans: nat
    ghost var failures: nat

    ghost function Abs(): Loop
      reads this
    {
      Loop(lastPeer, cached, lastInner, outerFails, returned, scans, failures)
    }

    constructor (cached: Option<Peer>)
      ensures Abs() == Start(cached)
    {
      this.lastPeer, this.cached, this.lastInner, this.outerFails := None, cached, None, 0;
      this.returned, this.scans, this.failures := false, 0, 0;
    }

    /** One pass of the loop. */
    method Iterate(t: Turn)
      requires !returned
      modifies this
      ensures Abs() == TurnStep(old(Abs()), t)
    {
      var peer: Option<Peer> := None;
      if outerFails < MAX_OUTER_FAILS {
        peer := if lastPeer.Some? then lastPeer else cached;
      } else {
        cached := None;
      }
      if peer.None? {
        peer := t.scan;
        if peer.None? { return; }
        outerFails := 0;
        scans := scans + 1;
      }
      lastPeer := peer;
      if t.noInner {
        returned := true;
        return;
      }
      match t.outcome
      case Ended(inner) =>
        lastInner := Some(inner);
        outerFails := 0;
      case OuterFailed =>
        outerFails := outerFails + 1;
        failures := failures + 1;
      case InnerFailed =>
        lastInner := None;
    }
  }

  ghost predicate IsRun(states: seq<Loop>, turns: seq<Turn>, cached: Option<Peer>) {
    && |states| == |turns| + 1 && states[0] == Start(cached)
    && forall i :: 0 <= i < |turns| ==> states[i + 1] == TurnStep(states[i], turns[i])
  }

  /** Every scan after the first is paid for by two outer failures. */
  ghost predicate Inv(s: Loop) {
    && s.outerFails <= MAX_OUTER_FAILS
    && (if s.lastPeer == None then s.scans == 0 && s.outerFails == 0 && s.failures == 0
        else 2 * s.scans + s.outerFails <= 2 + s.failures)
  }

  lemma StepKeeps(s: Loop, t: Turn)
    requires Inv(s)
    ensures Inv(TurnStep(s, t))
  {
  }

  lemma {:induction false} InvAlways(states: seq<Loop>, turns: seq<Turn>, cached: Option<Peer>, n: nat)
    requires IsRun(states, turns, cached) && n < |states|
    ensures Inv(states[n])
  {
    if n > 0 {
      InvAlways(states, turns, cached, n - 1);
      StepKeeps(states[n - 1], turns[n - 1]);
    }
  }

  /** In every run the successful scans are at most one more than half the outer failures, and the
      failure counter never exceeds two. */
  lemma ScansArePaidFor(states: seq<Loop>, turns: seq<Turn>, cached: Option<Peer>, n: nat)
    requires IsRun(states, turns, cached) && n < |states|
    ensures states[n].outerFails <= MAX_OUTER_FAILS
    ensures states[n].scans <= 1 + states[n].failures / 2
  {
    InvAlways(states, turns, cached, n);
  }

  /** The turn got as far as a session. */
  ghost predicate HadSession(states: seq<Loop>, turns: seq<Turn>, i: nat)
    requires |states| > |turns| > i
  {
    !states[i].returned && !turns[i].noInner && (KnownPeer(states[i]).Some? || turns[i].scan.Some?)
  }

  /** A session that fails on its outer edge raises the counter, one that carried traffic resets it, and an
      inner failure leaves it, after a scan has reset it; the inner edge of the last session that
      carried traffic is remembered until an inner failure. */
  lemma SessionCounts(states: seq<Loop>, turns: seq<Turn>, cached: Option<Peer>, i: nat)
    requires IsRun(states, turns, cached) && i < |turns| && HadSession(states, turns, i)
    ensures var s, t, turn := states[i], states[i + 1], turns[i];
            var fails := if KnownPeer(s).None? then 0 else s.outerFails;
            && t.outerFails == (match turn.outcome case Ended(_) => 0 case OuterFailed => fails + 1 case InnerFailed => fails)
            && t.lastInner == (match turn.outcome case Ended(e) => Some(e) case OuterFailed => s.lastInner case InnerFailed => None)
            && t.lastPeer == (if KnownPeer(s).Some? then KnownPeer(s) else turn.scan) && !t.returned
            && t.scans == s.scans + if KnownPeer(s).None? then 1 else 0
  {
    assert states[i + 1] == TurnStep(states[i], turns[i]);
  }

  /** Two outer failures in a row bring a scan: from the second on, every turn asks for one, and the first
      that succeeds supplies the edge. */
  lemma TwoFailuresRescan(states: seq<Loop>, turns: seq<Turn>, cached: Option<Peer>, i: nat)
    requires IsRun(states, turns, cached) && i + 2 < |turns|
    requires states[i].lastPeer.Some? && states[i].outerFails == 0
    requires HadSession(states, turns, i) && HadSession(states, turns, i + 1)
    requires turns[i].outcome == OuterFailed && turns[i + 1].outcome == OuterFailed
    ensures KnownPeer(states[i + 2]) == None && states[i + 2].outerFails == 2
    ensures turns[i + 2].scan.None? ==> KnownPeer(states[i + 3]) == None && states[i + 3].scans == states[i + 2].scans
    ensures turns[i + 2].scan.Some? ==>
              states[i + 3].lastPeer == turns[i + 2].scan && states[i + 3].scans == states[i + 2].scans + 1
  {
    SessionCounts(states, turns, cached, i);
    SessionCounts(states, turns, cached, i + 1);
    assert states[i + 3] == TurnStep(states[i + 2], turns[i + 2]);
  }

  /** A run starts with the cached edge if there is one, without a scan. */
  lemma CachedEdgeFirst(states: seq<Loop>, turns: seq<Turn>, cached: Option<Peer>)
    requires IsRun(states, turns, cached) && turns != []
    ensures KnownPeer(states[0]) == cached
    ensures cached.Some? ==> states[1].lastPeer == cached && states[1].scans == 0
  {
    assert states[1] == TurnStep(states[0], turns[0]);
  }

  /** The loop returns exactly when an edge was chosen and no inner candidate is known. */
  lemma ReturnsExactly(states: seq<Loop>, turns: seq<Turn>, cached: Option<Peer>, i: nat)
    requires IsRun(states, turns, cached) && i < |turns|
    ensures states[i + 1].returned <==>
              states[i].returned || (turns[i].noInner && (KnownPeer(states[i]).Some? || turns[i].scan.Some?))
  {
    assert states[i + 1] == TurnStep(states[i], turns[i]);
  }

  /** Once an outer edge is chosen and short of two failures, no number of inner failures or ended
      sessions brings a scan or another outer edge. */
  lemma {:induction false} InnerFailuresKeepTheEdge(states: seq<Loop>, turns: seq<Turn>, cached: Option<Peer>, i: nat, j: nat)
    requires IsRun(states, turns, cached) && i <= j < |states|
    requires states[i].lastPeer.Some? && states[i].outerFails < MAX_OUTER_FAILS
    requires forall k :: i <= k < j ==> turns[k].outcome != OuterFailed
    ensures states[j].scans == states[i].scans && states[j].lastPeer == states[i].lastPeer
    ensures states[j].outerFails <= states[i].outerFails
    decreases j
  {
    if i < j {
      InnerFailuresKeepTheEdge(states, turns, cached, i, j - 1);
      assert states[j] == TurnStep(states[j - 1], turns[j - 1]);
    }
  }
}
