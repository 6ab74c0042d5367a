/** The tun2socks receiver: 32-bit wrapping sequence numbers against an unbounded-offset receiver
    (section 3.4 of RFC 9293). */
module TcpReceiver {
  import opened Bytes

  /** The 32-bit sequence number of an absolute position. */
  function Wrap(x: int): U32 {
    x % 0x1_0000_0000
  }

  /** `expected.wrapping_sub(start) as i32`: how far a segment starts before what is expected. */
  function Behind(expected: U32, start: U32): int {
    var d := Wrap(expected - start);
    if d < 0x8000_0000 then d else d - 0x1_0000_0000
  }

  /** Forward the payload from an offset, or only acknowledge. */
  datatype Action = Forward(off: nat) | AckOnly

  datatype Verdict = Verdict(action: Action, ack: U32)

  /** What the code decides from the two 32-bit numbers. */
  function Decide(expected: U32, start: U32, len: nat): (v: Verdict)
    ensures v.action.Forward? ==> v.action.off <= len
  {
    var behind := Behind(expected, start);
    if behind == 0 then Verdict(Forward(0), Wrap(start + len))
    else if behind > 0 then
      if behind >= len then Verdict(AckOnly, expected) else Verdict(Forward(behind), Wrap(start + len))
    else Verdict(AckOnly, expected)
  }

  // ---- the reference: absolute stream offsets ------------------------------------------------

  /** A receiver that has the first `k` bytes takes from a segment at offset `o` exactly the part it
      lacks, provided the segment leaves no gap. */
  function RefAction(k: nat, o: int, len: nat): Action {
    if o <= k < o + len then Forward(k - o) else AckOnly
  }

  function RefNext(k: nat, o: int, len: nat): nat {
    if o <= k < o + len then o + len else k
  }

  /** The segment starts a non-zero number of whole wraps away from bytes it seems to carry. */
  predicate Aliased(k: nat, o: int, len: nat) {
    Wrap(k - o) < len && !(0 <= k - o < len)
  }

  predicate InWindow(k: nat, o: int) {
    -0x8000_0000 <= k - o < 0x8000_0000
  }

  lemma WrapDifference(a: int, b: int)
    ensures Wrap(Wrap(a) - Wrap(b)) == Wrap(a - b)
  {
    var qa, qb := a / 0x1_0000_0000, b / 0x1_0000_0000;
    assert Wrap(a) - Wrap(b) == (a - b) - 0x1_0000_0000 * (qa - qb);
    WrapMultiple(a - b, qb - qa);
  }

  lemma WrapMultiple(x: int, q: int)
    ensures Wrap(x + 0x1_0000_0000 * q) == Wrap(x)
  {
  }

  lemma WrapSum(a: int, n: int)
    ensures Wrap(Wrap(a) + n) == Wrap(a + n)
  {
    var q := a / 0x1_0000_0000;
    assert Wrap(a) + n == (a + n) + 0x1_0000_0000 * (-q);
    WrapMultiple(a + n, -q);
  }

  /** The 32-bit decision and the unbounded one agree on exactly the segments that do not alias. */
  lemma RefinesExactly(base: U32, k: nat, o: int, len: nat)
    requires 0 < len <= 0x8000_0000
    ensures Decide(Wrap(base + k), Wrap(base + o), len)
            == Verdict(RefAction(k, o, len), Wrap(base + RefNext(k, o, len)))
       <==> !Aliased(k, o, len)
  {
    var d := Wrap(k - o);
    assert Wrap(Wrap(base + k) - Wrap(base + o)) == d by {
      WrapDifference(base + k, base + o);
      assert base + k - (base + o) == k - o;
    }
    assert Wrap(Wrap(base + o) + len) == Wrap(base + o + len) by { WrapSum(base + o, len); }
    assert 0 <= k - o < len ==> d == k - o;
  }

  lemma WindowDoesNotAlias(k: nat, o: int, len: nat)
    requires InWindow(k, o) && len <= 0x8000_0000
    ensures !Aliased(k, o, len)
  {
    if k - o < 0 {
      assert Wrap(k - o) == k - o + 0x1_0000_0000;
    } else {
      assert Wrap(k - o) == k - o;
    }
  }

  /** Outside the window the code can re-inject old bytes: one wrap later, a stale copy of the first
      byte is taken for the next one. */
  lemma StaleSegmentAliases(base: U32)
    ensures Aliased(0x1_0000_0000, 0, 1)
    ensures Decide(Wrap(base + 0x1_0000_0000), Wrap(base + 0), 1).action == Forward(0)
    ensures RefAction(0x1_0000_0000, 0, 1) == AckOnly
  {
    RefinesExactly(base, 0x1_0000_0000, 0, 1);
  }

  lemma BehindIsDistance(base: U32, k: nat, next: nat)
    requires k <= next < k + 0x8000_0000
    ensures Behind(Wrap(base + next), Wrap(base + k)) == next - k
  {
    WrapDifference(base + next, base + k);
    assert base + next - (base + k) == next - k;
  }

  /** The shared acknowledgement of a connection, updated in place by the packet handler. `base` is the
      number of the app's first byte and `have` how many bytes an unbounded receiver has. */
  class SharedAck {
    var ack: U32
    ghost const base: U32
    ghost var have: nat

    ghost predicate Valid()
      reads this
    {
      ack == Wrap(base + have)
    }

    constructor (syn: U32)
      ensures Valid() && base == Wrap(syn + 1) && have == 0
    {
      ack := (syn + 1) % 0x1_0000_0000;
      base, have := Wrap(syn + 1), 0;
    }

    /** Judge a data segment whose first byte is `off` bytes into the app's stream: unless it is a whole
        number of wraps away, take from it exactly what an unbounded receiver lacks. */
    method Judge(start: U32, len: nat, ghost off: int) returns (action: Action)
      requires Valid() && 0 < len <= 0x8000_0000 && start == Wrap(base + off)
      modifies this
      ensures Verdict(action, ack) == Decide(old(ack), start, len)
      ensures !Aliased(old(have), off, len) ==>
                Valid() && action == RefAction(old(have), off, len) && have == RefNext(old(have), off, len)
      ensures Aliased(old(have), off, len) ==>
                Verdict(action, ack) != Verdict(RefAction(old(have), off, len), Wrap(base + RefNext(old(have), off, len)))
    {
      RefinesExactly(base, have, off, len);
      have := RefNext(have, off, len);
      var distance := (ack - start) % 0x1_0000_0000;
      var behind := if distance < 0x8000_0000 then distance else distance - 0x1_0000_0000;
      if behind == 0 {
        ack := (start + len) % 0x1_0000_0000;
        action := Forward(0);
      } else if behind > 0 {
        if behind >= len {
          action := AckOnly;
        } else {
          ack := (start + len) % 0x1_0000_0000;
          action := Forward(behind);
        }
      } else {
        action := AckOnly;
      }
    }
  }
}
