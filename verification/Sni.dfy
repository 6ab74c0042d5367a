/** Finding the server name in a TLS ClientHello (section 4.1.2 of RFC 8446, section 3 of RFC 6066). */
module Sni {
  import opened Bytes

  const HANDSHAKE: Byte := 0x16
  const CLIENT_HELLO: Byte := 1
  const SERVER_NAME: U16 := 0
  const HOST_NAME: Byte := 0

  // ---- the parser, on slices -----------------------------------------------------------------

  /** Skip a vector with a one-byte length. */
  function Skip8(c: seq<Byte>): Option<seq<Byte>> {
    if c == [] || |c| - 1 < c[0] then None else Some(c[c[0] as nat + 1..])
  }

  /** Skip a vector with a two-byte length. */
  function Skip16(c: seq<Byte>): Option<seq<Byte>> {
    if |c| < 2 || |c| - 2 < FromBe16(c[0], c[1]) then None else Some(c[FromBe16(c[0], c[1]) as nat + 2..])
  }

  function Bind(o: Option<seq<Byte>>, f: seq<Byte> -> Option<seq<Byte>>): Option<seq<Byte>> {
    if o.None? then None else f(o.value)
  }

  /** The session id, cipher suites and compression methods, then the extensions' total length. */
  function AfterVectors(c: seq<Byte>): Option<seq<Byte>> {
    var methods := Bind(Bind(Bind(Some(c), Skip8), Skip16), Skip8);
    if methods.None? || |methods.value| < 2 then None else Some(methods.value[2..])
  }

  /** The record and handshake headers, the version and the random, then the vectors. */
  function Extensions(buf: seq<Byte>): Option<seq<Byte>> {
    if |buf| < 5 || buf[0] != HANDSHAKE then None
    else if |buf| == 5 || buf[5] != CLIENT_HELLO then None
    else if |buf| < 5 + 4 + 34 then None
    else AfterVectors(buf[43..])
  }

  /** A host name; nothing, so look further; or a malformed list, so give up. */
  datatype Names = Host(name: seq<Byte>) | NoHost | Broken

  /** The entries of a server name list. */
  function HostIn(list: seq<Byte>): Names
    decreases |list|
  {
    if |list| < 3 then NoHost
    else
      var n: nat := FromBe16(list[1], list[2]);
      if |list| < 3 + n then Broken
      else if list[0] == HOST_NAME then Host(list[3..3 + n])
      else HostIn(list[3 + n..])
  }

  function HostInBody(body: seq<Byte>): Names {
    if |body| < 2 then Broken else HostIn(body[2..])
  }

  /** The extension list. */
  function HostInExtensions(c: seq<Byte>): Option<seq<Byte>>
    decreases |c|
  {
    if |c| < 4 then None
    else
      var n: nat := FromBe16(c[2], c[3]);
      if |c| < 4 + n then None
      else if FromBe16(c[0], c[1]) != SERVER_NAME then HostInExtensions(c[4 + n..])
      else match HostInBody(c[4..4 + n])
        case Host(name) => Some(name)
        case NoHost => HostInExtensions(c[4 + n..])
        case Broken => None
  }

  /** The raw host name the bytes received so far announce. */
  function Locate(buf: seq<Byte>): Option<seq<Byte>> {
    var c := Extensions(buf);
    if c.None? then None else HostInExtensions(c.value)
  }

  /** The name reported, given how a raw name is checked and normalised. */
  function TlsSni(buf: seq<Byte>, plausible: seq<Byte> -> Option<seq<Byte>>): Option<seq<Byte>> {
    Bind(Locate(buf), plausible)
  }

  // ---- the loops -----------------------------------------------------------------------------

  method FindHost(body: seq<Byte>) returns (r: Names)
    ensures r == HostInBody(body)
  {
    if |body| < 2 { return Broken; }
    var list := body[2..];
    while |list| >= 3
      invariant HostInBody(body) == HostIn(list)
    {
      var n: nat := FromBe16(list[1], list[2]);
      if |list| < 3 + n { return Broken; }
      if list[0] == HOST_NAME { return Host(list[3..3 + n]); }
      list := list[3 + n..];
    }
    return NoHost;
  }

  /** Walk over everything in front of the extensions. */
  method ToExtensions(buf: seq<Byte>) returns (r: Option<seq<Byte>>)
    ensures r == Extensions(buf)
  {
    if |buf| < 5 || buf[0] != HANDSHAKE { return None; }
    if |buf| == 5 || buf[5] != CLIENT_HELLO { return None; }
    if |buf| < 9 { return None; }
    var cur := buf[9..];
    if |cur| < 34 { return None; }
    assert cur[34..] == buf[43..];
    r := Skip8(cur[34..]);
    if r.None? { return; }
    r := Skip16(r.value);
    if r.None? { return; }
    r := Skip8(r.value);
    if r.None? { return; }
    if |r.value| < 2 { return None; }
    return Some(r.value[2..]);
  }

  method FindSni(buf: seq<Byte>) returns (r: Option<seq<Byte>>)
    ensures r == Locate(buf)
  {
    var start := ToExtensions(buf);
    if start.None? { return None; }
    var cur := start.value;
    while |cur| >= 4
      invariant Locate(buf) == HostInExtensions(cur)
    {
      var n: nat := FromBe16(cur[2], cur[3]);
      if |cur| < 4 + n { return None; }
      var kind, body := FromBe16(cur[0], cur[1]), cur[4..4 + n];
      if kind == SERVER_NAME {
        var names := FindHost(body);
        if names.Host? { return Some(names.name); }
        if names.Broken? { return None; }
      }
      cur := cur[4 + n..];
    }
    return None;
  }

  // ---- prefix stability ----------------------------------------------------------------------

  lemma Skip8Stable(c: seq<Byte>, more: seq<Byte>)
    requires Skip8(c).Some?
    ensures Skip8(c + more) == Some(Skip8(c).value + more)
  {
    var n := c[0] as nat + 1;
    assert (c + more)[n..] == c[n..] + more;
  }

  lemma Skip16Stable(c: seq<Byte>, more: seq<Byte>)
    requires Skip16(c).Some?
    ensures Skip16(c + more) == Some(Skip16(c).value + more)
  {
    var n := FromBe16(c[0], c[1]) as nat + 2;
    assert (c + more)[n..] == c[n..] + more;
  }

  lemma VectorsStable(c: seq<Byte>, more: seq<Byte>)
    requires AfterVectors(c).Some?
    ensures AfterVectors(c + more) == Some(AfterVectors(c).value + more)
  {
    var a := Skip8(c).value;
    var b := Skip16(a).value;
    var d := Skip8(b).value;
    Skip8Stable(c, more);
    Skip16Stable(a, more);
    Skip8Stable(b, more);
    assert (d + more)[2..] == d[2..] + more;
  }

  lemma {:induction false} ExtensionsStable(c: seq<Byte>, more: seq<Byte>)
    requires HostInExtensions(c).Some?
    ensures HostInExtensions(c + more) == HostInExtensions(c)
    decreases |c|
  {
    var n: nat := FromBe16(c[2], c[3]);
    assert (c + more)[4..4 + n] == c[4..4 + n];
    assert (c + more)[4 + n..] == c[4 + n..] + more;
    if FromBe16(c[0], c[1]) != SERVER_NAME || HostInBody(c[4..4 + n]).NoHost? {
      ExtensionsStable(c[4 + n..], more);
    }
  }

  /** A name found in the bytes received so far is the name found in every extension of them. */
  lemma NameIsStable(buf: seq<Byte>, more: seq<Byte>)
    requires Locate(buf).Some?
    ensures Locate(buf + more) == Locate(buf)
  {
    assert (buf + more)[43..] == buf[43..] + more;
    VectorsStable(buf[43..], more);
    ExtensionsStable(Extensions(buf).value, more);
  }

  /** So is the name reported, whatever makes a name plausible. */
  lemma SniIsStable(buf: seq<Byte>, more: seq<Byte>, plausible: seq<Byte> -> Option<seq<Byte>>)
    requires TlsSni(buf, plausible).Some?
    ensures TlsSni(buf + more, plausible) == TlsSni(buf, plausible)
  {
    NameIsStable(buf, more);
  }

  // ---- completeness --------------------------------------------------------------------------

  datatype Entry = Entry(kind: Byte, name: seq<Byte>)
  datatype Ext = Other(kind: U16, body: seq<Byte>) | ServerName(listLength: U16, entries: seq<Entry>)

  /** A ClientHello; the lengths the parser ignores are arbitrary. */
  datatype Hello = Hello(recordHeader: seq<Byte>, length: seq<Byte>, versionAndRandom: seq<Byte>,
                         sessionId: seq<Byte>, ciphers: seq<Byte>, compression: seq<Byte>,
                         extLength: U16, extensions: seq<Ext>)

  function Vector8(v: seq<Byte>): seq<Byte>
    requires |v| < 0x100
  {
    [|v|] + v
  }

  function Vector16(v: seq<Byte>): seq<Byte>
    requires |v| < 0x1_0000
  {
    Be16(|v|) + v
  }

  predicate ValidEntries(entries: seq<Entry>) {
    forall i :: 0 <= i < |entries| ==> |entries[i].name| < 0x1_0000
  }

  function EncodeEntries(entries: seq<Entry>): seq<Byte>
    requires ValidEntries(entries)
  {
    if entries == [] then []
    else [entries[0].kind] + Vector16(entries[0].name) + EncodeEntries(entries[1..])
  }

  predicate ValidExt(e: Ext) {
    match e
    case Other(kind, body) => kind != SERVER_NAME && |body| < 0x1_0000
    case ServerName(_, entries) => ValidEntries(entries) && 2 + |EncodeEntries(entries)| < 0x1_0000
  }

  predicate ValidExts(exts: seq<Ext>) {
    forall i :: 0 <= i < |exts| ==> ValidExt(exts[i])
  }

  function Body(e: Ext): seq<Byte>
    requires ValidExt(e)
  {
    match e
    case Other(_, body) => body
    case ServerName(n, entries) => Be16(n) + EncodeEntries(entries)
  }

  function Kind(e: Ext): U16 {
    if e.Other? then e.kind else SERVER_NAME
  }

  function EncodeExts(exts: seq<Ext>): seq<Byte>
    requires ValidExts(exts)
  {
    if exts == [] then []
    else Be16(Kind(exts[0])) + Vector16(Body(exts[0])) + EncodeExts(exts[1..])
  }

  predicate ValidHello(h: Hello) {
    && |h.recordHeader| == 4 && |h.length| == 3 && |h.versionAndRandom| == 34
    && |h.sessionId| < 0x100 && |h.ciphers| < 0x1_0000 && |h.compression| < 0x100
    && ValidExts(h.extensions)
  }

  /** The fixed part of the message. */
  function Front(h: Hello): seq<Byte> {
    [HANDSHAKE] + h.recordHeader + [CLIENT_HELLO] + h.length + h.versionAndRandom
  }

  /** The length-prefixed vectors and what follows them. */
  function Vectors(h: Hello, tail: seq<Byte>): seq<Byte>
    requires ValidHello(h)
  {
    Vector8(h.sessionId) + (Vector16(h.ciphers) + (Vector8(h.compression) + (Be16(h.extLength) + tail)))
  }

  function EncodeHello(h: Hello): seq<Byte>
    requires ValidHello(h)
  {
    Front(h) + Vectors(h, EncodeExts(h.extensions))
  }

  /** The reference: the first host name entry of the structured message. */
  function FirstEntry(entries: seq<Entry>): Option<seq<Byte>> {
    if entries == [] then None
    else if entries[0].kind == HOST_NAME then Some(entries[0].name)
    else FirstEntry(entries[1..])
  }

  function FirstHost(exts: seq<Ext>): Option<seq<Byte>> {
    if exts == [] then None
    else
      var here := if exts[0].ServerName? then FirstEntry(exts[0].entries) else None;
      if here.Some? then here else FirstHost(exts[1..])
  }

  lemma Vector16InFront(v: seq<Byte>, rest: seq<Byte>)
    requires |v| < 0x1_0000
    ensures var b := Vector16(v) + rest;
            && FromBe16(b[0], b[1]) == |v| && b[2..2 + |v|] == v && b[2 + |v|..] == rest
  {
  }

  /** What is found in a list of entries with bytes behind it. */
  lemma {:induction false} EntriesFound(entries: seq<Entry>, tail: seq<Byte>)
    requires ValidEntries(entries)
    ensures HostIn(EncodeEntries(entries) + tail) == match FirstEntry(entries) case None => HostIn(tail) case Some(n) => Host(n)
    decreases |entries|
  {
    if entries != [] {
      var e, rest := entries[0], EncodeEntries(entries[1..]) + tail;
      var list := EncodeEntries(entries) + tail;
      ConcatAssociative([e.kind] + Vector16(e.name), EncodeEntries(entries[1..]), tail);
      ConcatAssociative([e.kind], Vector16(e.name), rest);
      Vector16InFront(e.name, rest);
      assert list[1..] == Vector16(e.name) + rest;
      assert list[1] == list[1..][0] && list[2] == list[1..][1];
      assert list[3..3 + |e.name|] == list[1..][2..2 + |e.name|];
      assert list[3 + |e.name|..] == list[1..][2 + |e.name|..];
      EntriesFound(entries[1..], tail);
    } else {
      assert EncodeEntries(entries) + tail == tail;
    }
  }

  /** An entry cut short: a kind and a length, and fewer bytes than that behind it. */
  predicate CutEntry(tail: seq<Byte>) {
    |tail| >= 3 && |tail| < 3 + FromBe16(tail[1], tail[2])
  }

  /** A server name extension without a host name that ends in a cut entry ends the search, whatever other
      extensions follow; one that ends in less than an entry's header does not. */
  lemma CutListGivesUp(total: U16, entries: seq<Entry>, tail: seq<Byte>, more: seq<Byte>)
    requires ValidEntries(entries) && FirstEntry(entries).None? && (CutEntry(tail) || |tail| < 3)
    requires 2 + |EncodeEntries(entries) + tail| < 0x1_0000
    ensures var body := Be16(total) + (EncodeEntries(entries) + tail);
            HostInExtensions(Be16(SERVER_NAME) + Vector16(body) + more) == if CutEntry(tail) then None else HostInExtensions(more)
  {
    var body := Be16(total) + (EncodeEntries(entries) + tail);
    var c := Be16(SERVER_NAME) + Vector16(body) + more;
    EntriesFound(entries, tail);
    assert body[2..] == EncodeEntries(entries) + tail;
    FramedInFront(SERVER_NAME, body, more);
  }

  /** A list too short for its own length ends the search as well. */
  lemma ShortListGivesUp(body: seq<Byte>, more: seq<Byte>)
    requires |body| < 2
    ensures HostInExtensions(Be16(SERVER_NAME) + Vector16(body) + more) == None
  {
    FramedInFront(SERVER_NAME, body, more);
  }

  /** Only in a handshake record that starts with a ClientHello is a name ever found. */
  lemma OnlyInClientHello(buf: seq<Byte>)
    requires Locate(buf).Some?
    ensures |buf| > 43 && buf[0] == 0x16 && buf[5] == 1
  {
  }

  lemma BodyFound(e: Ext)
    requires ValidExt(e) && e.ServerName?
    ensures HostInBody(Body(e)) == match FirstEntry(e.entries) case None => NoHost case Some(n) => Host(n)
  {
    EntriesFound(e.entries, []);
    assert Body(e)[2..] == EncodeEntries(e.entries) + [];
  }

  /** The fields of an extension in front of other bytes. */
  lemma FramedInFront(kind: U16, body: seq<Byte>, rest: seq<Byte>)
    requires |body| < 0x1_0000
    ensures var c, n := Be16(kind) + Vector16(body) + rest, |body|;
            && FromBe16(c[0], c[1]) == kind && FromBe16(c[2], c[3]) == n
            && c[4..4 + n] == body && c[4 + n..] == rest
  {
    var c := Be16(kind) + Vector16(body) + rest;
    Vector16InFront(body, rest);
    ConcatAssociative(Be16(kind), Vector16(body), rest);
    assert c[2..] == Vector16(body) + rest;
    assert c[2] == c[2..][0] && c[3] == c[2..][1];
    assert c[4..4 + |body|] == c[2..][2..2 + |body|];
    assert c[4 + |body|..] == c[2..][2 + |body|..];
  }

  /** What is found in extensions with bytes behind them: the first host name among the extensions, else
      whatever the bytes read as. */
  function HostOrBehind(exts: seq<Ext>, more: seq<Byte>): Option<seq<Byte>> {
    if FirstHost(exts).Some? then FirstHost(exts) else HostInExtensions(more)
  }

  lemma {:induction false} ExtsFound(exts: seq<Ext>, more: seq<Byte>)
    requires ValidExts(exts)
    ensures HostInExtensions(EncodeExts(exts) + more) == HostOrBehind(exts, more)
    decreases |exts|
  {
    if exts != [] {
      var e, rest := exts[0], EncodeExts(exts[1..]);
      FramedInFront(Kind(e), Body(e), rest + more);
      ConcatAssociative(Be16(Kind(e)) + Vector16(Body(e)), rest, more);
      if e.ServerName? { BodyFound(e); }
      ExtsFound(exts[1..], more);
    } else {
      assert EncodeExts(exts) + more == more;
    }
  }

  lemma VectorsSkipped(h: Hello, tail: seq<Byte>)
    requires ValidHello(h)
    ensures AfterVectors(Vectors(h, tail)) == Some(tail)
  {
    var d := Be16(h.extLength) + tail;
    var c := Vector8(h.compression) + d;
    var b := Vector16(h.ciphers) + c;
    var a := Vector8(h.sessionId) + b;
    assert a[1 + |h.sessionId|..] == b;
    Vector16InFront(h.ciphers, c);
    assert b[2 + |h.ciphers|..] == c;
    assert c[1 + |h.compression|..] == d;
    assert d[2..] == tail;
  }

  lemma VectorsThen(h: Hello, a: seq<Byte>, b: seq<Byte>)
    requires ValidHello(h)
    ensures Vectors(h, a) + b == Vectors(h, a + b)
  {
    var d := Be16(h.extLength) + a;
    var c := Vector8(h.compression) + d;
    ConcatAssociative(Be16(h.extLength), a, b);
    ConcatAssociative(Vector8(h.compression), d, b);
    ConcatAssociative(Vector16(h.ciphers), c, b);
    ConcatAssociative(Vector8(h.sessionId), Vector16(h.ciphers) + c, b);
  }

  lemma HelloExtensions(h: Hello, more: seq<Byte>)
    requires ValidHello(h)
    ensures Extensions(EncodeHello(h) + more) == Some(EncodeExts(h.extensions) + more)
  {
    var buf, tail := EncodeHello(h) + more, EncodeExts(h.extensions) + more;
    var front, vectors := Front(h), Vectors(h, tail);
    assert buf == front + vectors by {
      ConcatAssociative(front, Vectors(h, EncodeExts(h.extensions)), more);
      VectorsThen(h, EncodeExts(h.extensions), more);
    }
    assert |front| == 43 && front[0] == HANDSHAKE && front[5] == CLIENT_HELLO;
    assert buf[43..] == vectors;
    VectorsSkipped(h, tail);
  }

  /** Completeness: for every ClientHello, with any session id, ciphers, compression list, ignored
      lengths and preceding extensions, and whatever bytes follow, the parser finds the first host name
      entry if there is one. In a message that has none it goes on into the bytes that follow, since it
      ignores the length of the extensions. */
  lemma FindsFirstHost(h: Hello, more: seq<Byte>)
    requires ValidHello(h)
    ensures Locate(EncodeHello(h) + more) == HostOrBehind(h.extensions, more)
  {
    HelloExtensions(h, more);
    ExtsFound(h.extensions, more);
  }

  /** So exactly when those bytes do not read as extensions with a host name is a message without a name
      reported as such. */
  lemma NamelessExactly(h: Hello, more: seq<Byte>)
    requires ValidHello(h) && FirstHost(h.extensions).None?
    ensures Locate(EncodeHello(h) + more) == None <==> HostInExtensions(more) == None
    ensures Locate(EncodeHello(h)) == None
  {
    FindsFirstHost(h, more);
    FindsFirstHost(h, []);
    assert EncodeHello(h) + [] == EncodeHello(h);
  }

  /** A name that is not in the message: a server name extension right behind it. */
  lemma NameBehindIsReported(h: Hello, name: seq<Byte>)
    requires ValidHello(h) && FirstHost(h.extensions).None? && |name| < 1000
    ensures var behind := [ServerName(0, [Entry(HOST_NAME, name)])];
            ValidExts(behind) && Locate(EncodeHello(h) + EncodeExts(behind)) == Some(name)
  {
    var entries := [Entry(HOST_NAME, name)];
    var behind := [ServerName(0, entries)];
    assert |EncodeEntries(entries)| == 3 + |name|;
    ExtsFound(behind, []);
    assert EncodeExts(behind) + [] == EncodeExts(behind);
    FindsFirstHost(h, EncodeExts(behind));
  }
}
