/** Reading an HTTP request head in chunks, rescanning only a three-byte overlap. */
module HttpHead {
  import opened Bytes

  const HEAD_LIMIT := 16384
  const CHUNK := 2048

  /** The blank line, CR LF CR LF, starts at position i. */
  predicate BlankLineAt(b: seq<Byte>, i: int) {
    0 <= i && i + 4 <= |b| && b[i] == 13 && b[i + 1] == 10 && b[i + 2] == 13 && b[i + 3] == 10
  }

  ghost predicate NoBlankLine(b: seq<Byte>) {
    forall i :: !BlankLineAt(b, i)
  }

  ghost predicate FirstBlankLine(b: seq<Byte>, i: int) {
    BlankLineAt(b, i) && forall j :: j < i ==> !BlankLineAt(b, j)
  }

  /** The head with its blank line, and what the client sent behind it; or why there is none. The last
      case is a caller's list of chunks running out, where the reader would wait for more. */
  datatype Outcome = Head(head: seq<Byte>, pipelined: seq<Byte>) | Closed | TooLarge | Waiting

  /** The reference: after each chunk, search everything received so far from the start. */
  ghost function Naive(before: seq<Byte>, chunks: seq<seq<Byte>>): Outcome
    decreases |chunks|
  {
    if chunks == [] then Waiting
    else if chunks[0] == [] then Closed
    else
      var got := before + chunks[0];
      if exists i :: FirstBlankLine(got, i) then
        var i :| FirstBlankLine(got, i);
        Head(got[..i + 4], got[i + 4..])
      else if |got| > HEAD_LIMIT then TooLarge
      else Naive(got, chunks[1..])
  }

  /** The first match at or after `from`, as a window search finds it. */
  method Search(b: seq<Byte>, from: nat) returns (pos: Option<nat>)
    requires from <= |b|
    ensures pos.Some? ==> from <= pos.value && BlankLineAt(b, pos.value)
    ensures pos.Some? ==> forall j :: from <= j < pos.value ==> !BlankLineAt(b, j)
    ensures pos.None? ==> forall j :: from <= j ==> !BlankLineAt(b, j)
  {
    var i := from;
    while i + 4 <= |b|
      invariant from <= i
      invariant forall j :: from <= j < i ==> !BlankLineAt(b, j)
    {
      if b[i] == 13 && b[i + 1] == 10 && b[i + 2] == 13 && b[i + 3] == 10 {
        return Some(i);
      }
      i := i + 1;
    }
    return None;
  }

  lemma ScannedPrefix(old_: seq<Byte>, chunk: seq<Byte>, j: int)
    requires NoBlankLine(old_) && BlankLineAt(old_ + chunk, j)
    ensures |old_| - 3 <= j
  {
    if j + 4 <= |old_| {
      assert BlankLineAt(old_, j);
    }
  }

  /** The overlap search finds exactly what a search of the whole buffer would, for every chunking. */
  method ReadHead(chunks: seq<seq<Byte>>) returns (r: Outcome)
    ensures r == Naive([], chunks)
  {
    var head, searched, i := [], 0, 0;
    assert chunks[0..] == chunks;
    while i < |chunks|
      invariant i <= |chunks| && searched == |head|
      invariant NoBlankLine(head)
      invariant Naive([], chunks) == Naive(head, chunks[i..])
    {
      var chunk := chunks[i];
      assert chunks[i..][0] == chunk && chunks[i..][1..] == chunks[i + 1..];
      if chunk == [] { return Closed; }
      ghost var before := head;
      head := head + chunk;
      var from := if searched < 3 then 0 else searched - 3;
      var pos := Search(head, from);
      forall j | BlankLineAt(head, j)
        ensures from <= j
      {
        ScannedPrefix(before, chunk, j);
      }
      if pos.Some? {
        assert FirstBlankLine(head, pos.value);
        FirstIsUnique(head, pos.value);
        var end := pos.value + 4;
        return Head(head[..end], head[end..]);
      }
      searched := |head|;
      if |head| > HEAD_LIMIT { return TooLarge; }
      i := i + 1;
    }
    return Waiting;
  }

  lemma FirstIsUnique(b: seq<Byte>, i: int)
    requires FirstBlankLine(b, i)
    ensures forall j :: FirstBlankLine(b, j) ==> j == i
  {
  }

  ghost predicate InChunks(chunks: seq<seq<Byte>>) {
    forall i :: 0 <= i < |chunks| ==> |chunks[i]| <= CHUNK
  }

  /** What an outcome says about the bytes received, for every chunking: a head and the bytes behind it
      are all the bytes read, the head ends with the first blank line, is at most one chunk over the
      limit; and without a blank line the head is refused exactly when it outgrows the limit. */
  lemma {:induction false} OutcomeMeaning(before: seq<Byte>, chunks: seq<seq<Byte>>) returns (n: nat, got: seq<Byte>)
    requires NoBlankLine(before) && |before| <= HEAD_LIMIT && InChunks(chunks)
    ensures n <= |chunks| && got == before + Flatten(chunks[..n])
    ensures var r := Naive(before, chunks);
            match r
            case Head(head, pipelined) =>
              && head + pipelined == got && |head| >= 4 && FirstBlankLine(got, |head| - 4)
              && |head| <= HEAD_LIMIT + CHUNK
            case Closed => n < |chunks| && chunks[n] == [] && NoBlankLine(got) && |got| <= HEAD_LIMIT
            case TooLarge => NoBlankLine(got) && |got| > HEAD_LIMIT
            case Waiting => n == |chunks| && NoBlankLine(got) && |got| <= HEAD_LIMIT
    decreases |chunks|
  {
    assert before + [] == before;
    if chunks == [] {
      n, got := 0, before;
    } else if chunks[0] == [] {
      n, got := 0, before;
    } else {
      got := before + chunks[0];
      var one := chunks[..1];
      assert one[0] == chunks[0] && one[1..] == [];
      assert Flatten(one) == chunks[0];
      n := 1;
      if exists i :: FirstBlankLine(got, i) {
      } else {
        NoFirstNoBlankLine(got);
        if |got| <= HEAD_LIMIT {
          var m, all := OutcomeMeaning(got, chunks[1..]);
          var rest := chunks[1..][..m];
          assert chunks[..m + 1] == [chunks[0]] + rest;
          assert chunks[..m + 1][1..] == rest;
          ConcatAssociative(before, chunks[0], Flatten(rest));
          n, got := m + 1, all;
        }
      }
    }
  }

  lemma {:induction false} LeastBlankLine(b: seq<Byte>, i: nat)
    requires BlankLineAt(b, i)
    ensures exists j :: FirstBlankLine(b, j)
  {
    if j: nat :| j < i && BlankLineAt(b, j) {
      LeastBlankLine(b, j);
    } else {
      assert FirstBlankLine(b, i);
    }
  }

  lemma NoFirstNoBlankLine(b: seq<Byte>)
    requires !exists i :: FirstBlankLine(b, i)
    ensures NoBlankLine(b)
  {
    forall i | BlankLineAt(b, i)
      ensures false
    {
      LeastBlankLine(b, i);
    }
  }

  /** The head is the stream up to its first blank line, however it was cut. */
  lemma HeadOfStream(stream: seq<Byte>, chunks: seq<seq<Byte>>) returns (i: nat)
    requires InChunks(chunks) && Flatten(chunks) <= stream && Naive([], chunks).Head?
    ensures FirstBlankLine(stream, i) && Naive([], chunks).head == stream[..i + 4]
  {
    var head := Naive([], chunks).head;
    var n, got := OutcomeMeaning([], chunks);
    PrefixOfStream(chunks, n, got, stream);
    i := |head| - 4;
    assert head == got[..i + 4] == stream[..i + 4];
    forall j | j < i
      ensures !BlankLineAt(stream, j)
    {
      assert !BlankLineAt(got, j);
    }
  }

  /** So two ways of cutting one stream that both find a head find the same one. */
  lemma SameHead(stream: seq<Byte>, a: seq<seq<Byte>>, b: seq<seq<Byte>>)
    requires InChunks(a) && InChunks(b) && Flatten(a) <= stream && Flatten(b) <= stream
    requires Naive([], a).Head? && Naive([], b).Head?
    ensures Naive([], a).head == Naive([], b).head
  {
    var i := HeadOfStream(stream, a);
    var j := HeadOfStream(stream, b);
    FirstIsUnique(stream, i);
  }

  /** The chunks are what successful reads of a stream can return. */
  ghost predicate Chunking(stream: seq<Byte>, chunks: seq<seq<Byte>>) {
    InChunks(chunks) && Flatten(chunks) == stream && forall i :: 0 <= i < |chunks| ==> chunks[i] != []
  }

  /** A head whose blank line ends within one byte of the limit is found, however the stream is cut. */
  lemma HeadFound(stream: seq<Byte>, chunks: seq<seq<Byte>>, i: nat)
    requires Chunking(stream, chunks) && FirstBlankLine(stream, i) && i + 4 <= HEAD_LIMIT + 1
    ensures Naive([], chunks).Head? && Naive([], chunks).head == stream[..i + 4]
  {
    var r := Naive([], chunks);
    var n, got := OutcomeMeaning([], chunks);
    PrefixOfStream(chunks, n, got, stream);
    assert n == |chunks| ==> chunks[..n] == chunks;
    assert |got| >= i + 4 ==> BlankLineAt(got, i);
    var k := HeadOfStream(stream, chunks);
    FirstIsUnique(stream, i);
  }

  /** The stream one byte at a time. */
  function Bytewise(stream: seq<Byte>): (chunks: seq<seq<Byte>>)
    ensures |chunks| == |stream| && forall i :: 0 <= i < |chunks| ==> chunks[i] == [stream[i]]
  {
    seq(|stream|, i requires 0 <= i < |stream| => [stream[i]])
  }

  lemma {:induction false} BytewiseFlat(stream: seq<Byte>)
    ensures Flatten(Bytewise(stream)) == stream
    decreases |stream|
  {
    if stream != [] {
      BytewiseFlat(stream[1..]);
      assert Bytewise(stream)[1..] == Bytewise(stream[1..]);
    }
  }

  /** Read bytewise, a head longer than that is refused. */
  lemma {:induction false} BytewiseRefused(before: seq<Byte>, stream: seq<Byte>, i: nat)
    requires |before| <= HEAD_LIMIT && FirstBlankLine(before + stream, i) && i + 4 > HEAD_LIMIT + 1
    ensures Naive(before, Bytewise(stream)) == TooLarge
    decreases |stream|
  {
    var all := before + stream;
    var got := before + [stream[0]];
    assert Bytewise(stream)[0] == [stream[0]] && Bytewise(stream)[1..] == Bytewise(stream[1..]);
    forall j | BlankLineAt(got, j) ensures false { assert BlankLineAt(all, j); }
    if |got| <= HEAD_LIMIT {
      assert got + stream[1..] == all;
      BytewiseRefused(got, stream[1..], i);
    }
  }

  /** The exact condition: every way of cutting a stream finds its head if and only if the first blank
      line ends within one byte of the limit. */
  lemma FoundExactly(stream: seq<Byte>, i: nat)
    requires FirstBlankLine(stream, i)
    ensures i + 4 <= HEAD_LIMIT + 1 <==> forall chunks :: Chunking(stream, chunks) ==> Naive([], chunks).Head?
  {
    if i + 4 <= HEAD_LIMIT + 1 {
      forall chunks | Chunking(stream, chunks) ensures Naive([], chunks).Head? { HeadFound(stream, chunks, i); }
    } else {
      BytewiseOutcome(stream, i);
    }
  }

  lemma BytewiseOutcome(stream: seq<Byte>, i: nat)
    requires FirstBlankLine(stream, i) && i + 4 > HEAD_LIMIT + 1
    ensures Chunking(stream, Bytewise(stream)) && Naive([], Bytewise(stream)) == TooLarge
  {
    assert Chunking(stream, Bytewise(stream)) by { BytewiseFlat(stream); }
    assert Naive([], Bytewise(stream)) == TooLarge by { RefusedFrom([], stream, i); }
  }

  lemma RefusedFrom(before: seq<Byte>, stream: seq<Byte>, i: nat)
    requires before == [] && FirstBlankLine(stream, i) && i + 4 > HEAD_LIMIT + 1
    ensures Naive(before, Bytewise(stream)) == TooLarge
  {
    assert before + stream == stream;
    BytewiseRefused(before, stream, i);
  }

  lemma PrefixOfStream(chunks: seq<seq<Byte>>, n: nat, got: seq<Byte>, stream: seq<Byte>)
    requires n <= |chunks| && got == [] + Flatten(chunks[..n]) && Flatten(chunks) <= stream
    ensures got <= stream
  {
    FlattenAppend(chunks[..n], chunks[n..]);
    assert chunks[..n] + chunks[n..] == chunks;
  }
}
