/** Record sizes generated from one entry of a padding scheme. */
module PaddingScheme {
  import opened Bytes
  import opened SessionWriter

  /** A comma-separated piece of an entry: `lo-hi` with each side parsed or not, the check mark
      `c`, or anything else. */
  datatype Piece = Range(a: Option<int>, b: Option<int>) | Mark | Other

  function Lo(p: Piece): int
    requires p.Range? && p.a.Some? && p.b.Some?
  {
    if p.a.value <= p.b.value then p.a.value else p.b.value
  }

  function Hi(p: Piece): int
    requires p.Range? && p.a.Some? && p.b.Some?
  {
    if p.a.value <= p.b.value then p.b.value else p.a.value
  }

  predicate Usable(p: Piece) {
    p.Mark? || (p.Range? && p.a.Some? && p.b.Some? && Lo(p) > 0)
  }

  predicate Fits(p: Piece, size: int) {
    && Usable(p)
    && if p.Mark? then size == CHECK_MARK else Lo(p) <= size && (size < Hi(p) || Lo(p) == Hi(p) == size)
  }

  /** One size per usable piece, in order; `draws` are the values of the random source. */
  method Generate(pieces: seq<Piece>, draws: seq<nat>) returns (sizes: seq<int>, ghost from: seq<nat>)
    requires |draws| == |pieces|
    requires forall i :: 0 <= i < |pieces| && Usable(pieces[i]) && pieces[i].Range? ==>
               Lo(pieces[i]) == Hi(pieces[i]) || draws[i] < Hi(pieces[i]) - Lo(pieces[i])
    ensures ValidSizes(sizes)
    ensures |from| == |sizes|
    ensures forall j, k :: 0 <= j < k < |from| ==> from[j] < from[k]
    ensures forall k :: 0 <= k < |from| ==> from[k] < |pieces| && Fits(pieces[from[k]], sizes[k])
    ensures forall i :: 0 <= i < |pieces| ==> (Usable(pieces[i]) <==> i in from)
  {
    sizes, from := [], [];
    for i := 0 to |pieces|
      invariant ValidSizes(sizes) && |from| == |sizes|
      invariant forall k :: 0 <= k < |from| ==> from[k] < i && Fits(pieces[from[k]], sizes[k])
      invariant forall j, k :: 0 <= j < k < |from| ==> from[j] < from[k]
      invariant forall j :: 0 <= j < i ==> (Usable(pieces[j]) <==> j in from)
    {
      var p := pieces[i];
      if p.Range? {
        if p.a.None? || p.b.None? { continue; }
        var lo, hi := Lo(p), Hi(p);
        if lo <= 0 || hi <= 0 { continue; }
        sizes := sizes + [if lo == hi then lo else draws[i] + lo];
        from := from + [i];
      } else if p.Mark? {
        sizes := sizes + [CHECK_MARK];
        from := from + [i];
      }
    }
  }
}
