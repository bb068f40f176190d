/** When the routing of a connection is independent of how its bytes arrive. */
module PeekRouterTheorems {
  import opened Bytes
  import opened Sequences
  import opened Wrappers
  import opened Search
  import opened Text
  import opened PeekRouter

  // ---------- The matcher is the grammar ----------

  /** A request line taken apart as the routing pattern does. */
  datatype RequestLine = RequestLine(
    space: string, path: string, query: string, gap: string, minor: char, end: string)

  predicate NoSpaces(s: string) {
    forall i :: 0 <= i < |s| ==> !IsSpace(s[i])
  }

  predicate Proper(r: RequestLine) {
    && r.space != "" && AllSpaces(r.space)
    && r.path in {"/ws", "/api/stt/stream"}
    && (r.query == "" || (r.query[0] == '?' && NoSpaces(r.query)))
    && r.gap != "" && AllSpaces(r.gap)
    && r.minor in {'0', '1'}
    && r.end in {"", "\r"}
  }

  function Version(r: RequestLine): string {
    "HTTP/1." + ([r.minor] + r.end)
  }

  function Tail(r: RequestLine): string {
    r.query + (r.gap + Version(r))
  }

  function Spell(r: RequestLine): string {
    "GET" + (r.space + (r.path + Tail(r)))
  }

  lemma {:induction false} SkipWordSplits(s: string)
    ensures var r := SkipWord(s);
      && s == s[..|s| - |r|] + r && NoSpaces(s[..|s| - |r|]) && (r == "" || IsSpace(r[0]))
  {
    if s != "" && !IsSpace(s[0]) {
      SkipWordSplits(s[1..]);
      var n := |s| - |SkipWord(s)|;
      assert s[..n] == [s[0]] + s[1..][..n - 1];
    }
  }

  lemma {:induction false} SkipWordOver(a: string, b: string)
    requires NoSpaces(a) && b != "" && IsSpace(b[0])
    ensures SkipWord(a + b) == b
  {
    if a == "" {
      assert a + b == b;
    } else {
      assert (a + b)[1..] == a[1..] + b;
      SkipWordOver(a[1..], b);
    }
  }

  lemma VersionMatches(r: RequestLine)
    requires Proper(r)
    ensures MatchesVersion(Version(r)) && !IsSpace(Version(r)[0])
  {
    var v := Version(r);
    assert v[..|HTTP|] == HTTP && v[|HTTP| + 1..] == r.end;
  }

  lemma TailMatches(r: RequestLine)
    requires Proper(r)
    ensures MatchesTail(Tail(r))
  {
    VersionMatches(r);
    var s, rest := Tail(r), r.gap + Version(r);
    if r.query == "" {
      assert s == rest && s[0] == r.gap[0];
    } else {
      assert s[1..] == r.query[1..] + rest && s[..1] == "?";
      SkipWordOver(r.query[1..], rest);
    }
    TrimStartOver(r.gap, Version(r));
  }

  lemma SpellMatches(r: RequestLine)
    requires Proper(r)
    ensures IsUpgrade(Spell(r))
  {
    var p := r.path + Tail(r);
    assert Spell(r)[3..] == r.space + p && Spell(r)[..3] == "GET";
    TrimStartOver(r.space, p);
    TailMatches(r);
    assert p[..|r.path|] == r.path && p[|r.path|..] == Tail(r);
    if r.path == STT_PATH { assert p[1] == 'a'; }
  }

  lemma VersionParses(v: string)
    requires MatchesVersion(v)
    ensures v == HTTP + ([v[|HTTP|]] + v[|HTTP| + 1..])
  {
  }

  function WordOf(s: string): string {
    s[..|s| - |SkipWord(s)|]
  }

  /** The part of the tail before its spaces, and the rest. */
  function QueryOf(s: string): string {
    if "?" <= s then "?" + WordOf(s[1..]) else ""
  }

  function AfterQuery(s: string): string {
    if "?" <= s then SkipWord(s[1..]) else s
  }

  lemma QueryStarts(word: string, rest: string)
    requires NoSpaces(word)
    ensures ("?" + word)[0] == '?' && NoSpaces("?" + word)
    ensures ("?" + word) + rest == "?" + (word + rest)
  {
  }

  lemma QueryParses(s: string)
    ensures s == QueryOf(s) + AfterQuery(s)
    ensures QueryOf(s) == "" || (QueryOf(s)[0] == '?' && NoSpaces(QueryOf(s)))
  {
    if "?" <= s {
      SkipWordSplits(s[1..]);
      var word, rest := WordOf(s[1..]), SkipWord(s[1..]);
      QueryStarts(word, rest);
      assert s == "?" + s[1..];
    }
  }

  lemma TailParses(s: string, space: string, path: string) returns (r: RequestLine)
    requires MatchesTail(s)
    requires space != "" && AllSpaces(space) && path in {WS_PATH, STT_PATH}
    ensures Proper(r) && r.space == space && r.path == path && Tail(r) == s
  {
    var q := AfterQuery(s);
    var v := TrimStart(q);
    QueryParses(s);
    TrimStartSplits(q);
    VersionParses(v);
    var gap := q[..|q| - |v|];
    r := RequestLine(space, path, QueryOf(s), gap, v[|HTTP|], v[|HTTP| + 1..]);
    assert Version(r) == v;
    assert q == gap + v;
  }

  /** The single-pass matcher accepts exactly the lines that the routing pattern spells. */
  lemma UpgradeIffSpelled(line: string)
    ensures IsUpgrade(line) <==> exists r :: Proper(r) && Spell(r) == line
  {
    if IsUpgrade(line) {
      var p := TrimStart(line[3..]);
      TrimStartSplits(line[3..]);
      var space := line[3..][..|line| - 3 - |p|];
      var path := if WS_PATH <= p then WS_PATH else STT_PATH;
      var r := TailParses(p[|path|..], space, path);
      assert p == path + p[|path|..] && line == "GET" + line[3..];
      assert Proper(r) && Spell(r) == line;
    }
    forall r | Proper(r) && Spell(r) == line ensures IsUpgrade(line) {
      SpellMatches(r);
    }
  }

  // ---------- Chunk boundaries ----------

  /** The choice, apart from how much had to be read for it. */
  datatype Route = Undecided | Drop | Backend | Internal

  function RouteOf(c: Choice): Route {
    match c
    case Waiting => Undecided
    case Dropped => Drop
    case ToBackend(_) => Backend
    case ToInternal(_) => Internal
  }

  /** The first line alone decides for the backend, but it ends only beyond the peek limit. */
  predicate LateUpgrade(stream: seq<Byte>) {
    && !LooksLikeTlsHandshake(stream)
    && PeekWsRoute(stream) == Some(true)
    && IndexOfElement(stream, NEWLINE) >= 4096
  }

  lemma TlsPrefix(p: seq<Byte>, stream: seq<Byte>)
    requires p <= stream && LooksLikeTlsHandshake(stream)
    ensures Decide(p) in {Waiting, Dropped}
  {
    IndexOfElementMeans(p, NEWLINE);
    var m := IndexOfElement(p, NEWLINE);
    assert m < 0 || p[m] == stream[m];
  }

  lemma PlainPrefix(p: seq<Byte>, stream: seq<Byte>)
    requires p <= stream && !LooksLikeTlsHandshake(stream)
    ensures !LooksLikeTlsHandshake(p)
    ensures PeekWsRoute(p) in {None, PeekWsRoute(stream)}
    ensures PeekWsRoute(p).None? ==> IndexOfElement(stream, NEWLINE) == -1 || |p| <= IndexOfElement(stream, NEWLINE)
  {
    var m, n := IndexOfElement(p, NEWLINE), IndexOfElement(stream, NEWLINE);
    assert stream == p + stream[|p|..];
    if m >= 0 {
      IndexOfElementAppend(p, stream[|p|..], NEWLINE);
      assert p[..m] == stream[..m];
    } else {
      IndexOfElementMeans(stream, NEWLINE);
      IndexOfElementMeans(p, NEWLINE);
      assert forall i :: 0 <= i < |p| ==> stream[i] == p[i];
    }
  }

  lemma PrefixRoutes(p: seq<Byte>, stream: seq<Byte>)
    requires p <= stream && !LateUpgrade(stream)
    ensures RouteOf(Decide(p)) in {Undecided, RouteOf(Decide(stream))}
  {
    if LooksLikeTlsHandshake(stream) {
      TlsPrefix(p, stream);
    } else {
      PlainPrefix(p, stream);
    }
  }

  lemma {:induction false} PeekRoutes(peeked: seq<Byte>, chunks: seq<seq<Byte>>, stream: seq<Byte>)
    requires peeked + Concat(chunks) == stream && !LateUpgrade(stream)
    requires chunks != [] || Decide(stream) == Waiting
    ensures RouteOf(Peek(peeked, chunks)) == RouteOf(Decide(stream))
    decreases |chunks|
  {
    if chunks == [] {
    } else {
      var p := peeked + chunks[0];
      assert stream == p + Concat(chunks[1..]);
      PrefixRoutes(p, stream);
      if Decide(p) == Waiting {
        if chunks[1..] == [] { assert p == stream; }
        PeekRoutes(p, chunks[1..], stream);
      }
    }
  }

  predicate IsCutOf(chunks: seq<seq<Byte>>, stream: seq<Byte>) {
    Concat(chunks) == stream
  }

  /** Every cutting of the stream into chunks is routed alike. */
  ghost predicate CutFree(stream: seq<Byte>) {
    forall a, b :: IsCutOf(a, stream) && IsCutOf(b, stream) ==>
      RouteOf(Peek([], a)) == RouteOf(Peek([], b))
  }

  lemma RouteOfCut(chunks: seq<seq<Byte>>, stream: seq<Byte>)
    requires IsCutOf(chunks, stream) && !LateUpgrade(stream)
    ensures RouteOf(Peek([], chunks)) == RouteOf(Decide(stream))
  {
    assert [] + Concat(chunks) == stream;
    PeekRoutes([], chunks, stream);
  }

  lemma ConcatOne(chunk: seq<Byte>)
    ensures Concat([chunk]) == chunk
  {
  }

  /** Cut at the limit, a late upgrade is routed before its first line has ended. */
  lemma LateHeadIsInternal(stream: seq<Byte>)
    requires LateUpgrade(stream)
    ensures |stream| >= PEEK_LIMIT_BYTES
    ensures var head := stream[..PEEK_LIMIT_BYTES]; Decide(head) == ToInternal(head)
  {
    var head, n := stream[..PEEK_LIMIT_BYTES], IndexOfElement(stream, NEWLINE);
    IndexOfElementMeans(stream, NEWLINE);
    IndexOfElementMeans(head, NEWLINE);
    assert forall i :: 0 <= i < |head| ==> head[i] == stream[..n][i];
  }

  lemma FirstDecides(first: seq<Byte>, rest: seq<seq<Byte>>)
    requires Decide(first) != Waiting
    ensures Peek([], [first] + rest) == Decide(first)
  {
    assert [] + first == first && ([first] + rest)[1..] == rest;
  }

  lemma LateIsCut(stream: seq<Byte>)
    requires LateUpgrade(stream)
    ensures !CutFree(stream)
  {
    LateHeadIsInternal(stream);
    var head, tail := stream[..PEEK_LIMIT_BYTES], stream[PEEK_LIMIT_BYTES..];
    var whole: seq<seq<Byte>> := [stream] + [];
    var split: seq<seq<Byte>> := [head] + [tail];
    FirstDecides(stream, []);
    FirstDecides(head, [tail]);
    ConcatOne(stream);
    ConcatOne(tail);
    assert whole == [stream] && split[1..] == [tail] && head + tail == stream;
    assert IsCutOf(whole, stream) && IsCutOf(split, stream);
    assert RouteOf(Peek([], whole)) == Backend && RouteOf(Peek([], split)) == Internal;
  }

  /** Routing depends on where the chunks are cut only for an upgrade whose request line outgrows the peek limit. */
  lemma CutFreeIff(stream: seq<Byte>)
    ensures CutFree(stream) <==> !LateUpgrade(stream)
  {
    if LateUpgrade(stream) {
      LateIsCut(stream);
    } else {
      forall a, b | IsCutOf(a, stream) && IsCutOf(b, stream)
        ensures RouteOf(Peek([], a)) == RouteOf(Peek([], b))
      {
        RouteOfCut(a, stream);
        RouteOfCut(b, stream);
      }
    }
  }

  /** One line of ASCII. */
  predicate IsLine(s: string) {
    forall i :: 0 <= i < |s| ==> s[i] as int < 128 && s[i] != '\n'
  }

  function Sent(line: string): seq<Byte>
    requires IsLine(line)
  {
    seq(|line|, i requires 0 <= i < |line| => line[i] as Byte) + [NEWLINE]
  }

  lemma SentIsRouted(line: string)
    requires IsLine(line)
    ensures IndexOfElement(Sent(line), NEWLINE) == |line|
    ensures PeekWsRoute(Sent(line)) == Some(IsUpgrade(line))
  {
    var stream := Sent(line);
    IndexOfElementMeans(stream, NEWLINE);
    var n := IndexOfElement(stream, NEWLINE);
    assert stream[|line|] == NEWLINE;
    assert forall k :: 0 <= k < |line| ==> stream[k] == line[k] as Byte && stream[k] != NEWLINE;
    assert Ascii(stream[..n]) == line;
  }

  function LongRequest(): RequestLine {
    RequestLine(" ", WS_PATH, "?" + seq(PEEK_LIMIT_BYTES, _ => 'a'), " ", '1', "")
  }

  lemma LongRequestIsLine()
    ensures Proper(LongRequest()) && IsLine(Spell(LongRequest())) && |Spell(LongRequest())| > PEEK_LIMIT_BYTES
    ensures Spell(LongRequest())[0] == 'G'
  {
    var r := LongRequest();
    assert AllSpaces(" ") && NoSpaces(r.query);
    LineConcat("GET", r.space + (r.path + Tail(r)));
    LineConcat(r.space, r.path + Tail(r));
    LineConcat(r.path, Tail(r));
    LineConcat(r.query, r.gap + Version(r));
    LineConcat(r.gap, Version(r));
    LineConcat(HTTP, [r.minor] + r.end);
  }

  lemma LineConcat(a: string, b: string)
    ensures IsLine(a + b) <==> IsLine(a) && IsLine(b)
  {
    assert forall i :: 0 <= i < |a| ==> (a + b)[i] == a[i];
    assert forall i :: 0 <= i < |b| ==> (a + b)[|a| + i] == b[i];
  }

  /** There are such upgrades: a long query is enough to be routed by how the bytes arrive. */
  lemma LongQueryIsCut()
    ensures IsLine(Spell(LongRequest())) && !CutFree(Sent(Spell(LongRequest())))
  {
    var line := Spell(LongRequest());
    LongRequestIsLine();
    SpellMatches(LongRequest());
    SentIsRouted(line);
    assert Sent(line)[0] == line[0] as Byte;
    CutFreeIff(Sent(line));
  }

  /** A client that opens with a TLS handshake is dropped, whatever its bytes and however they arrive. */
  lemma TlsIsDropped(chunks: seq<seq<Byte>>)
    requires var bytes := Concat(chunks); |bytes| >= 3 && bytes[0] == 0x16 && bytes[1] == 3 && bytes[2] <= 4
    ensures Peek([], chunks) == Dropped
  {
    RouteOfCut(chunks, Concat(chunks));
  }

  /** The fate of a connection that has sent these bytes, in whatever chunks. */
  function Fate(stream: seq<Byte>): Route {
    var n := IndexOfElement(stream, NEWLINE);
    if |stream| >= 3 && stream[0] == 0x16 && stream[1] == 3 && stream[2] <= 4 then Drop
    else if n >= 0 then if IsUpgrade(Ascii(stream[..n])) then Backend else Internal
    else if |stream| < 4096 then Undecided
    else Internal
  }

  /** A late upgrade aside: dropped for a handshake, else as the first line says, or internal at the limit. */
  lemma RouteIsFate(chunks: seq<seq<Byte>>)
    requires !LateUpgrade(Concat(chunks))
    ensures RouteOf(Peek([], chunks)) == Fate(Concat(chunks))
  {
    RouteOfCut(chunks, Concat(chunks));
  }

  /** In particular a request line that ends below the limit goes to the backend exactly when it is an upgrade. */
  lemma LineIsRouted(chunks: seq<seq<Byte>>, line: string, rest: seq<Byte>)
    requires IsLine(line) && |line| < 4096 && (line == "" || line[0] as int != 0x16)
    requires Concat(chunks) == Sent(line) + rest
    ensures RouteOf(Peek([], chunks)) == if exists r :: Proper(r) && Spell(r) == line then Backend else Internal
  {
    var stream := Concat(chunks);
    SentIsRouted(line);
    IndexOfElementAppend(Sent(line), rest, NEWLINE);
    assert stream[..|line|] == Sent(line)[..|line|];
    assert Ascii(stream[..|line|]) == line;
    assert stream[0] == Sent(line)[0];
    UpgradeIffSpelled(line);
    RouteIsFate(chunks);
  }

  /** A byte above 127 is read as the character 128 below it. */
  lemma HighBitIsDropped(bytes: seq<Byte>, i: nat)
    requires i < |bytes|
    ensures |Ascii(bytes)| == |bytes|
    ensures Ascii(bytes)[i] as int == if bytes[i] < 128 then bytes[i] as int else bytes[i] as int - 128
  {
  }
}
