/** Two readers of a streamed chat completion: server-sent lines in, reply and tool calls out. */
module ChatStream {
  import opened Sequences
  import opened Wrappers
  import opened Search
  import opened Text

  // ---------- Lines ----------

  /** The newline-terminated lines of a text; what follows the last newline is not one. */
  function Lines(text: string): seq<string> {
    var cut := IndexOfElement(text, '\n');
    if cut == -1 then [] else [text[..cut]] + Lines(text[cut + 1..])
  }

  function Unfinished(text: string): string {
    var cut := IndexOfElement(text, '\n');
    if cut == -1 then text else Unfinished(text[cut + 1..])
  }

  // ---------- From a line to a payload ----------

  /** What a line hands to the JSON parser: the data of a `data:` line that is not the end marker. */
  function Payload(line: string): Option<string> {
    var trimmed := Trim(line);
    if !("data:" <= trimmed) then None
    else
      var payload := Trim(trimmed[5..]);
      if payload == "[DONE]" then None else Some(payload)
  }

  // ---------- From a payload to a turn ----------

  /** One piece of a streamed tool call; a field the fragment does not carry is None. */
  datatype Fragment = Fragment(index: Option<int>, id: Option<string>, name: Option<string>, args: Option<string>)

  /** What a parsed payload is to the readers; NoDelta lacks a choice or its delta, NullDelta has a null one. */
  datatype Parsed =
    | Malformed
    | NullRoot
    | NoDelta
    | NullDelta
    | Delta(content: Option<string>, fragments: seq<Fragment>)

  datatype ToolCall = ToolCall(id: string, name: string, argumentsJson: string)

  /** A Map keyed by index keeps the order in which its keys were first set. */
  datatype Slot = Slot(index: int, call: ToolCall)

  datatype Turn = Turn(reply: string, calls: seq<Slot>)

  datatype Failure = Unreadable

  function SlotIndex(f: Fragment): int {
    GetOr(f.index, 0)
  }

  /** The position of an index's slot, or |calls|. */
  function Find(calls: seq<Slot>, index: int): (k: nat)
    ensures k <= |calls|
    ensures k < |calls| ==> calls[k].index == index
  {
    if calls == [] then 0
    else
      var n := |calls| - 1;
      var k := Find(calls[..n], index);
      if k < n || calls[n].index == index then k else n + 1
  }

  function Merged(call: ToolCall, f: Fragment): ToolCall {
    ToolCall(GetOr(f.id, call.id), GetOr(f.name, call.name), call.argumentsJson + GetOr(f.args, ""))
  }

  function AddFragment(calls: seq<Slot>, f: Fragment): seq<Slot> {
    var k := Find(calls, SlotIndex(f));
    if k < |calls| then calls[k := Slot(SlotIndex(f), Merged(calls[k].call, f))]
    else calls + [Slot(SlotIndex(f), Merged(ToolCall("", "", ""), f))]
  }

  function AddFragments(calls: seq<Slot>, fragments: seq<Fragment>): seq<Slot> {
    if fragments == [] then calls
    else AddFragment(AddFragments(calls, fragments[..|fragments| - 1]), fragments[|fragments| - 1])
  }

  /** askOnce on one payload: a malformed one is reported and skipped, a null one throws. */
  function Ask(turn: Turn, parsed: Parsed): Result<Turn, Failure> {
    match parsed
    case Malformed => Ok(turn)
    case NoDelta => Ok(turn)
    case NullRoot => Err(Unreadable)
    case NullDelta => Err(Unreadable)
    case Delta(content, fragments) =>
      Ok(Turn(turn.reply + GetOr(content, ""), AddFragments(turn.calls, fragments)))
  }

  function AskLine(turn: Turn, line: string, parse: string -> Parsed): Result<Turn, Failure> {
    var payload := Payload(line);
    if payload.None? then Ok(turn) else Ask(turn, parse(payload.value))
  }

  function AskLines(turn: Turn, lines: seq<string>, parse: string -> Parsed): Result<Turn, Failure>
    decreases |lines|
  {
    if lines == [] then Ok(turn)
    else
      var next := AskLine(turn, lines[0], parse);
      if next.Err? then next else AskLines(next.value, lines[1..], parse)
  }

  const SILENT: Turn := Turn("", [])

  datatype Answer = Answer(reply: string, calls: seq<ToolCall>)

  /** A call whose name never arrived is left out. */
  function Assembled(calls: seq<Slot>): seq<ToolCall> {
    if calls == [] then []
    else
      var last := calls[|calls| - 1].call;
      Assembled(calls[..|calls| - 1]) + if last.name != "" then [last] else []
  }

  function Answered(r: Result<Turn, Failure>): Result<Answer, Failure> {
    match r
    case Ok(turn) => Ok(Answer(turn.reply, Assembled(turn.calls)))
    case Err(error) => Err(error)
  }

  datatype Measured = Measured(completion: string, toolCalls: nat)

  /** measureOne on one payload: JSON.parse is not guarded, a null delta is. */
  function Measure(m: Measured, parsed: Parsed): Result<Measured, Failure> {
    match parsed
    case Malformed => Err(Unreadable)
    case NullRoot => Err(Unreadable)
    case NoDelta => Ok(m)
    case NullDelta => Ok(m)
    case Delta(content, fragments) =>
      Ok(Measured(m.completion + GetOr(content, ""), m.toolCalls + |fragments|))
  }

  function MeasureLine(m: Measured, line: string, parse: string -> Parsed): Result<Measured, Failure> {
    var payload := Payload(line);
    if payload.None? then Ok(m) else Measure(m, parse(payload.value))
  }

  function MeasureLines(m: Measured, lines: seq<string>, parse: string -> Parsed): Result<Measured, Failure>
    decreases |lines|
  {
    if lines == [] then Ok(m)
    else
      var next := MeasureLine(m, lines[0], parse);
      if next.Err? then next else MeasureLines(next.value, lines[1..], parse)
  }

  // ---------- Where the lines of a text are cut ----------

  /** A line found in the buffer is the next line of the buffer and all that is still to come. */
  lemma NextLine(buffer: string, rest: string, cut: nat)
    requires cut < |buffer| && IndexOfElement(buffer, '\n') == cut
    ensures Lines(buffer + rest) == [buffer[..cut]] + Lines(buffer[cut + 1..] + rest)
  {
    var text := buffer + rest;
    IndexOfElementAppend(buffer, rest, '\n');
    assert text[..cut] == buffer[..cut];
    assert text[cut + 1..] == buffer[cut + 1..] + rest;
  }

  lemma {:induction false} LinesAcross(a: string, b: string)
    ensures Lines(a + b) == Lines(a) + Lines(Unfinished(a) + b)
  {
    var cut := IndexOfElement(a, '\n');
    if cut == -1 {
      assert Unfinished(a) == a && [] + Lines(a + b) == Lines(a + b);
    } else {
      var tail := a[cut + 1..];
      NextLine(a, b, cut);
      LinesAcross(tail, b);
      AcrossCons(a, b, cut);
    }
  }

  lemma AcrossCons(a: string, b: string, cut: nat)
    requires cut < |a| && IndexOfElement(a, '\n') == cut
    requires var tail := a[cut + 1..];
      Lines(a + b) == [a[..cut]] + (Lines(tail) + Lines(Unfinished(tail) + b))
    ensures Lines(a + b) == Lines(a) + Lines(Unfinished(a) + b)
  {
    var tail := a[cut + 1..];
    Assoc([a[..cut]], Lines(tail), Lines(Unfinished(tail) + b));
  }

  lemma {:induction false} SplitIsLines(text: string)
    ensures Split(text, '\n') == Lines(text) + [Unfinished(text)]
    ensures IndexOfElement(Unfinished(text), '\n') == -1
  {
    var cut := IndexOfElement(text, '\n');
    if cut != -1 {
      SplitIsLines(text[cut + 1..]);
      Assoc([text[..cut]], Lines(text[cut + 1..]), [Unfinished(text)]);
    }
  }

  // ---------- askOnce ----------

  method Collect(calls: seq<Slot>, fragments: seq<Fragment>) returns (r: seq<Slot>)
    ensures r == AddFragments(calls, fragments)
  {
    r := calls;
    for i := 0 to |fragments|
      invariant r == AddFragments(calls, fragments[..i])
    {
      assert fragments[..i + 1][..i] == fragments[..i];
      r := AddFragment(r, fragments[i]);
    }
    assert fragments[..|fragments|] == fragments;
  }

  method ReadLine(turn: Turn, line: string, parse: string -> Parsed) returns (r: Result<Turn, Failure>)
    ensures r == AskLine(turn, line, parse)
  {
    var payload := Payload(line);
    if payload.None? { return Ok(turn); }
    var parsed := parse(payload.value);
    if parsed.Malformed? { return Ok(turn); }
    if parsed.NullRoot? || parsed.NullDelta? { return Err(Unreadable); }
    if parsed.NoDelta? { return Ok(turn); }
    var calls := Collect(turn.calls, parsed.fragments);
    return Ok(Turn(turn.reply + GetOr(parsed.content, ""), calls));
  }

  /** However the text arrives in chunks, the answer is that of its lines. */
  method AskOnce(chunks: seq<string>, parse: string -> Parsed) returns (r: Result<Answer, Failure>)
    ensures r == Answered(AskLines(SILENT, Lines(Concat(chunks)), parse))
  {
    var turn, buffered := SILENT, "";
    ghost var answer := AskLines(SILENT, Lines(Concat(chunks)), parse);
    assert "" + Concat(chunks[0..]) == Concat(chunks);
    for i := 0 to |chunks|
      invariant IndexOfElement(buffered, '\n') == -1
      invariant answer == AskLines(turn, Lines(buffered + Concat(chunks[i..])), parse)
    {
      ghost var rest := Concat(chunks[i + 1..]);
      NextChunk(buffered, chunks, i);
      buffered := buffered + chunks[i];
      var cut := IndexOfElement(buffered, '\n');
      while cut != -1
        invariant cut == IndexOfElement(buffered, '\n')
        invariant answer == AskLines(turn, Lines(buffered + rest), parse)
        decreases |buffered|
      {
        var line := buffered[..cut];
        NextLine(buffered, rest, cut);
        buffered := buffered[cut + 1..];
        cut := IndexOfElement(buffered, '\n');
        var next := ReadLine(turn, line, parse);
        if next.Err? { return Err(next.error); }
        turn := next.value;
      }
    }
    NoLine(buffered);
    return Ok(Answer(turn.reply, Assembled(turn.calls)));
  }

  lemma NextChunk(buffered: string, chunks: seq<string>, i: nat)
    requires i < |chunks|
    ensures buffered + Concat(chunks[i..]) == (buffered + chunks[i]) + Concat(chunks[i + 1..])
  {
  }

  lemma NoLine(text: string)
    requires IndexOfElement(text, '\n') == -1
    ensures Lines(text + Concat([])) == []
  {
    assert text + "" == text;
  }

  // ---------- measureOne ----------

  method CountLine(m: Measured, line: string, parse: string -> Parsed) returns (r: Result<Measured, Failure>)
    ensures r == MeasureLine(m, line, parse)
  {
    var payload := Payload(line);
    if payload.None? { return Ok(m); }
    var parsed := parse(payload.value);
    if parsed.Malformed? || parsed.NullRoot? { return Err(Unreadable); }
    if parsed.NoDelta? || parsed.NullDelta? { return Ok(m); }
    return Ok(Measured(m.completion + GetOr(parsed.content, ""), m.toolCalls + |parsed.fragments|));
  }

  /** The inner loop: these lines, before the later ones of the same text. */
  method CountLines(m0: Measured, lines: seq<string>, parse: string -> Parsed, ghost later: seq<string>)
    returns (r: Result<Measured, Failure>)
    ensures MeasureLines(m0, lines + later, parse) == if r.Err? then r else MeasureLines(r.value, later, parse)
  {
    var m := m0;
    for j := 0 to |lines|
      invariant MeasureLines(m0, lines + later, parse) == MeasureLines(m, lines[j..] + later, parse)
    {
      assert lines[j..] + later == [lines[j]] + (lines[j + 1..] + later);
      var next := CountLine(m, lines[j], parse);
      if next.Err? { return next; }
      m := next.value;
    }
    assert lines[|lines|..] + later == later;
    return Ok(m);
  }

  method MeasureOne(chunks: seq<string>, parse: string -> Parsed) returns (r: Result<Measured, Failure>)
    ensures r == MeasureLines(Measured("", 0), Lines(Concat(chunks)), parse)
  {
    var m, buffer := Measured("", 0), "";
    ghost var answer := MeasureLines(m, Lines(Concat(chunks)), parse);
    assert "" + Concat(chunks[0..]) == Concat(chunks);
    for i := 0 to |chunks|
      invariant IndexOfElement(buffer, '\n') == -1
      invariant answer == MeasureLines(m, Lines(buffer + Concat(chunks[i..])), parse)
    {
      ghost var rest := Concat(chunks[i + 1..]);
      NextChunk(buffer, chunks, i);
      buffer := buffer + chunks[i];
      SplitIsLines(buffer);
      LinesAcross(buffer, rest);
      var pieces := Split(buffer, '\n');
      var lines := pieces[..|pieces| - 1];
      buffer := pieces[|pieces| - 1];
      var next := CountLines(m, lines, parse, Lines(buffer + rest));
      if next.Err? { return next; }
      m := next.value;
    }
    NoLine(buffer);
    return Ok(m);
  }
}
