/** Octets, fixed-width unsigned integers and their network byte order. */
module Bytes {
  type Byte = x: int | 0 <= x < 0x100 witness 0
  type U16 = x: int | 0 <= x < 0x1_0000 witness 0
  type U32 = x: int | 0 <= x < 0x1_0000_0000 witness 0

  datatype Option<+T> = None | Some(value: T)


  function Be16(v: U16): (s: seq<Byte>)
    ensures |s| == 2
  {
    [v / 0x100, v % 0x100]
  }

  function FromBe16(hi: Byte, lo: Byte): U16 {
    hi * 0x100 + lo
  }

  function Be32(v: U32): (s: seq<Byte>)
    ensures |s| == 4
  {
    Be16(v / 0x1_0000) + Be16(v % 0x1_0000)
  }

  function FromBe32(a: Byte, b: Byte, c: Byte, d: Byte): U32 {
    FromBe16(a, b) * 0x1_0000 + FromBe16(c, d)
  }

  lemma Be32RoundTrip(v: U32)
    ensures var s := Be32(v); FromBe32(s[0], s[1], s[2], s[3]) == v
  {
    var s := Be32(v);
    assert FromBe16(s[0], s[1]) == v / 0x1_0000;
    assert FromBe16(s[2], s[3]) == v % 0x1_0000;
  }

  function Zeros(n: nat): (s: seq<Byte>)
    ensures |s| == n
    ensures forall i :: 0 <= i < n ==> s[i] == 0
  {
    seq(n, _ => 0)
  }

  lemma ConcatAssociative<T>(a: seq<T>, b: seq<T>, c: seq<T>)
    ensures (a + b) + c == a + (b + c)
  {
  }

  /** The concatenation of a list of chunks. */
  function Flatten<T>(chunks: seq<seq<T>>): seq<T> {
    if chunks == [] then [] else chunks[0] + Flatten(chunks[1..])
  }

  lemma {:induction false} FlattenAppend<T>(a: seq<seq<T>>, b: seq<seq<T>>)
    ensures Flatten(a + b) == Flatten(a) + Flatten(b)
  {
    if a == [] {
      assert a + b == b;
    } else {
      calc {
        Flatten(a + b);
        { assert (a + b)[0] == a[0] && (a + b)[1..] == a[1..] + b; }
        a[0] + Flatten(a[1..] + b);
        { FlattenAppend(a[1..], b); }
        a[0] + (Flatten(a[1..]) + Flatten(b));
        { ConcatAssociative(a[0], Flatten(a[1..]), Flatten(b)); }
        Flatten(a) + Flatten(b);
      }
    }
  }

  lemma FlattenSnoc<T>(a: seq<seq<T>>, x: seq<T>)
    ensures Flatten(a + [x]) == Flatten(a) + x
  {
    FlattenAppend(a, [x]);
    assert Flatten([x]) == x + Flatten<T>([]) == x;
  }
}
