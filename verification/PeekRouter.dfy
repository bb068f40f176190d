/** The TCP front door: deciding from the first bytes of a connection where to splice it. */
module PeekRouter {
  import opened Bytes
  import opened Sequences
  import opened Wrappers
  import opened Search
  import opened Text

  const PEEK_LIMIT_BYTES: nat := 4096
  const NEWLINE: Byte := 0x0a

  // ---------- The request line ----------

  /** Node's ascii decoding drops the high bit. */
  function Ascii(bytes: seq<Byte>): string {
    seq(|bytes|, i requires 0 <= i < |bytes| => (bytes[i] % 128) as char)
  }

  function SkipWord(s: string): (r: string)
    ensures |r| <= |s|
  {
    if s != "" && !IsSpace(s[0]) then SkipWord(s[1..]) else s
  }

  const WS_PATH: string := "/ws"
  const STT_PATH: string := "/api/stt/stream"
  const HTTP: string := "HTTP/1."

  predicate MatchesVersion(s: string) {
    && HTTP <= s && |s| > |HTTP| && s[|HTTP|] in {'0', '1'}
    && s[|HTTP| + 1..] in {"", "\r"}
  }

  /** After the path: an optional query, spaces, the version. */
  predicate MatchesTail(s: string) {
    var q := if "?" <= s then SkipWord(s[1..]) else s;
    var v := TrimStart(q);
    |v| < |q| && MatchesVersion(v)
  }

  /** The request-line test, as a matcher that reads the line once. */
  predicate IsUpgrade(line: string) {
    && "GET" <= line
    && var p := TrimStart(line[3..]);
    && |p| < |line| - 3
    && (if WS_PATH <= p then MatchesTail(p[|WS_PATH|..])
        else STT_PATH <= p && MatchesTail(p[|STT_PATH|..]))
  }

  // ---------- Peeking ----------

  predicate LooksLikeTlsHandshake(buf: seq<Byte>) {
    |buf| >= 3 && buf[0] == 0x16 && buf[1] == 0x03 && buf[2] <= 0x04
  }

  /** None when no newline has arrived yet. */
  function PeekWsRoute(buf: seq<Byte>): Option<bool> {
    var newline := IndexOfElement(buf, NEWLINE);
    if newline < 0 then None else Some(IsUpgrade(Ascii(buf[..newline])))
  }

  /** Spliced carries the bytes replayed to the endpoint. */
  datatype Choice = Waiting | Dropped | ToBackend(replay: seq<Byte>) | ToInternal(replay: seq<Byte>)

  /** One call of onData with everything peeked so far. */
  function Decide(peeked: seq<Byte>): Choice {
    if LooksLikeTlsHandshake(peeked) then Dropped
    else
      var decision := PeekWsRoute(peeked);
      if decision.None? && |peeked| < PEEK_LIMIT_BYTES then Waiting
      else if decision == Some(true) then ToBackend(peeked)
      else ToInternal(peeked)
  }

  /** The data events of one connection, until the choice is settled. */
  function Peek(peeked: seq<Byte>, chunks: seq<seq<Byte>>): Choice
    decreases |chunks|
  {
    if chunks == [] then Waiting
    else
      var choice := Decide(peeked + chunks[0]);
      if choice == Waiting then Peek(peeked + chunks[0], chunks[1..]) else choice
  }

  method RouteConnection(chunks: seq<seq<Byte>>) returns (choice: Choice, consumed: nat)
    ensures choice == Peek([], chunks)
    ensures consumed <= |chunks|
    ensures choice.ToBackend? || choice.ToInternal? ==> choice.replay == Concat(chunks[..consumed])
  {
    var peeked: seq<Byte> := [];
    consumed := 0;
    assert chunks[0..] == chunks;
    while consumed < |chunks|
      invariant consumed <= |chunks|
      invariant peeked == Concat(chunks[..consumed])
      invariant Peek([], chunks) == Peek(peeked, chunks[consumed..])
    {
      assert chunks[consumed..][1..] == chunks[consumed + 1..];
      ConcatSnoc(chunks[..consumed], chunks[consumed]);
      assert chunks[..consumed] + [chunks[consumed]] == chunks[..consumed + 1];
      peeked := peeked + chunks[consumed];
      consumed := consumed + 1;
      if LooksLikeTlsHandshake(peeked) {
        return Dropped, consumed;
      }
      var decision := PeekWsRoute(peeked);
      if decision != None || |peeked| >= PEEK_LIMIT_BYTES {
        return if decision == Some(true) then ToBackend(peeked) else ToInternal(peeked), consumed;
      }
    }
    return Waiting, consumed;
  }

  lemma {:induction false} ConcatSnoc(chunks: seq<seq<Byte>>, chunk: seq<Byte>)
    ensures Concat(chunks + [chunk]) == Concat(chunks) + chunk
  {
    if chunks == [] {
      assert chunks + [chunk] == [chunk] && [chunk][1..] == [] && Concat([chunk]) == chunk + [];
    } else {
      assert (chunks + [chunk])[1..] == chunks[1..] + [chunk];
      ConcatSnoc(chunks[1..], chunk);
    }
  }
}
