/** What the two readers recover from a streamed completion, and when they recover the same. */
module ChatStreamTheorems {
  import opened Wrappers
  import opened Search
  import opened Sequences
  import opened Text
  import opened ChatStream

  // ---------- The lines are the text ----------

  function Terminated(lines: seq<string>): string {
    if lines == [] then "" else lines[0] + "\n" + Terminated(lines[1..])
  }

  /** Lines cuts at every newline and nowhere else, and loses nothing. */
  lemma {:induction false} LinesAreTheText(text: string)
    ensures Terminated(Lines(text)) + Unfinished(text) == text
    ensures forall k :: 0 <= k < |Lines(text)| ==> '\n' !in Lines(text)[k]
    ensures '\n' !in Unfinished(text)
  {
    var cut := IndexOfElement(text, '\n');
    IndexOfElementMeans(text, '\n');
    if cut != -1 {
      LinesAreTheText(text[cut + 1..]);
      TextCons(text, cut);
    }
  }

  lemma TextCons(text: string, cut: nat)
    requires cut < |text| && IndexOfElement(text, '\n') == cut && text[cut] == '\n'
    requires Terminated(Lines(text[cut + 1..])) + Unfinished(text[cut + 1..]) == text[cut + 1..]
    ensures Terminated(Lines(text)) + Unfinished(text) == text
  {
    var head, tail := text[..cut] + "\n", text[cut + 1..];
    TerminatedCons(text[..cut], Lines(tail));
    Assoc(head, Terminated(Lines(tail)), Unfinished(tail));
    CutAt(text, cut);
  }

  lemma TerminatedCons(line: string, lines: seq<string>)
    ensures Terminated([line] + lines) == (line + "\n") + Terminated(lines)
  {
  }

  lemma CutAt(text: string, cut: nat)
    requires cut < |text| && text[cut] == '\n'
    ensures (text[..cut] + "\n") + text[cut + 1..] == text
  {
  }

  // ---------- Payloads ----------

  /** A line that hands x to the parser, spelled out; what spaces it has besides is of no account. */
  predicate Carries(line: string, a: string, b: string, x: string, c: string) {
    && line == a + "data:" + b + x + c
    && AllSpaces(a) && AllSpaces(b) && AllSpaces(c) && Trimmed(x) && x != "[DONE]"
  }

  /** White space around a mark and its text is taken off, that between them stays when there is a text. */
  lemma TrimMarked(mark: string, a: string, b: string, x: string, c: string)
    requires mark != "" && Trimmed(mark) && AllSpaces(a) && AllSpaces(b) && AllSpaces(c) && Trimmed(x)
    ensures Trim(a + mark + b + x + c) == mark + if x == "" then "" else b + x
  {
    if x == "" {
      MarkedAlone(mark, a, b, c);
      TrimIs(a, mark, b + c);
    } else {
      MarkedText(mark, a, b, x, c);
      TrimIs(a, mark + (b + x), c);
    }
  }

  lemma MarkedAlone(mark: string, a: string, b: string, c: string)
    ensures a + mark + b + "" + c == a + mark + (b + c) && mark + "" == mark
  {
  }

  lemma MarkedText(mark: string, a: string, b: string, x: string, c: string)
    ensures a + mark + b + x + c == a + (mark + (b + x)) + c
    ensures mark != "" && x != "" && Trimmed(mark) && Trimmed(x) ==> Trimmed(mark + (b + x))
  {
  }

  lemma BehindMark(mark: string, rest: string)
    ensures mark <= mark + rest && (mark + rest)[|mark|..] == rest
  {
  }

  lemma PayloadOfCarried(line: string, a: string, b: string, x: string, c: string)
    requires Carries(line, a, b, x, c)
    ensures Payload(line) == Some(x)
  {
    var rest := if x == "" then "" else b + x;
    assert Trimmed("data:") by { assert !IsSpace('d') && !IsSpace(':'); }
    TrimMarked("data:", a, b, x, c);
    BehindMark("data:", rest);
    assert Trim(rest) == x by {
      if x == "" {
        TrimSpaces("");
      } else {
        assert b + x + "" == rest;
        TrimIs(b, x, "");
      }
    }
  }

  lemma MarkedBack(mark: string, line: string, trimmed: string, a: string, outer: string,
                   b: string, x: string, inner: string)
    requires line == a + trimmed + outer && mark <= trimmed && trimmed[|mark|..] == b + x + inner
    ensures line == a + mark + b + x + (inner + outer)
  {
    assert trimmed == mark + (b + x + inner);
  }

  lemma PayloadIsCarried(line: string, x: string) returns (a: string, b: string, c: string)
    requires Payload(line) == Some(x)
    ensures Carries(line, a, b, x, c)
  {
    var trimmed := Trim(line);
    var outer, inner;
    a, outer := TrimSplits(line);
    b, inner := TrimSplits(trimmed[5..]);
    c := inner + outer;
    MarkedBack("data:", line, trimmed, a, outer, b, x, inner);
  }

  /** A line hands the parser the text behind `data:`, white space around it aside, unless it is the end mark. */
  lemma PayloadIff(line: string, x: string)
    ensures Payload(line) == Some(x) <==> exists a, b, c :: Carries(line, a, b, x, c)
  {
    if Payload(line) == Some(x) {
      var a, b, c := PayloadIsCarried(line, x);
    }
    forall a, b, c | Carries(line, a, b, x, c) ensures Payload(line) == Some(x) {
      PayloadOfCarried(line, a, b, x, c);
    }
  }

  // ---------- Replies ----------

  /** The payloads of the lines, parsed, in order. */
  function Parses(lines: seq<string>, parse: string -> Parsed): seq<Parsed> {
    if lines == [] then []
    else
      var payload := Payload(lines[0]);
      (if payload.Some? then [parse(payload.value)] else []) + Parses(lines[1..], parse)
  }

  function GivenText(text: Option<string>): string {
    if text.Some? then text.value else ""
  }

  function Contents(parsed: seq<Parsed>): string {
    if parsed == [] then ""
    else (if parsed[0].Delta? then GivenText(parsed[0].content) else "") + Contents(parsed[1..])
  }

  function Fragments(parsed: seq<Parsed>): seq<Fragment> {
    if parsed == [] then []
    else (if parsed[0].Delta? then parsed[0].fragments else []) + Fragments(parsed[1..])
  }

  predicate AskReads(p: Parsed) {
    !p.NullRoot? && !p.NullDelta?
  }

  predicate MeasureReads(p: Parsed) {
    !p.NullRoot? && !p.Malformed?
  }

  lemma {:induction false} AddFragmentsAcross(calls: seq<Slot>, a: seq<Fragment>, b: seq<Fragment>)
    ensures AddFragments(calls, a + b) == AddFragments(AddFragments(calls, a), b)
  {
    if b == [] {
      assert a + b == a;
    } else {
      var n := |b| - 1;
      assert (a + b)[..|a| + n] == a + b[..n];
      AddFragmentsAcross(calls, a, b[..n]);
    }
  }

  /** askOnce over parsed payloads alone. */
  function AskParses(turn: Turn, parsed: seq<Parsed>): Result<Turn, Failure>
    decreases |parsed|
  {
    if parsed == [] then Ok(turn)
    else
      var next := Ask(turn, parsed[0]);
      if next.Err? then next else AskParses(next.value, parsed[1..])
  }

  function MeasureParses(m: Measured, parsed: seq<Parsed>): Result<Measured, Failure>
    decreases |parsed|
  {
    if parsed == [] then Ok(m)
    else
      var next := Measure(m, parsed[0]);
      if next.Err? then next else MeasureParses(next.value, parsed[1..])
  }

  lemma {:induction false} AskSkipsLines(turn: Turn, lines: seq<string>, parse: string -> Parsed)
    ensures AskLines(turn, lines, parse) == AskParses(turn, Parses(lines, parse))
    decreases |lines|
  {
    if lines == [] {
    } else {
      var payload, later := Payload(lines[0]), Parses(lines[1..], parse);
      if payload.None? {
        AskSkipsLines(turn, lines[1..], parse);
        assert [] + later == later;
      } else {
        var p := parse(payload.value);
        assert ([p] + later)[1..] == later;
        var next := Ask(turn, p);
        if next.Ok? { AskSkipsLines(next.value, lines[1..], parse); }
      }
    }
  }

  lemma {:induction false} MeasureSkipsLines(m: Measured, lines: seq<string>, parse: string -> Parsed)
    ensures MeasureLines(m, lines, parse) == MeasureParses(m, Parses(lines, parse))
    decreases |lines|
  {
    if lines == [] {
    } else {
      var payload, later := Payload(lines[0]), Parses(lines[1..], parse);
      if payload.None? {
        MeasureSkipsLines(m, lines[1..], parse);
        assert [] + later == later;
      } else {
        var p := parse(payload.value);
        assert ([p] + later)[1..] == later;
        var next := Measure(m, p);
        if next.Ok? { MeasureSkipsLines(next.value, lines[1..], parse); }
      }
    }
  }

  lemma InCons(parsed: seq<Parsed>)
    requires parsed != []
    ensures forall p :: p in parsed <==> p == parsed[0] || p in parsed[1..]
  {
  }

  lemma {:induction false} AskFolds(turn: Turn, ps: seq<Parsed>)
    ensures var r := AskParses(turn, ps);
      && (r.Ok? <==> forall p :: p in ps ==> AskReads(p))
      && (r.Ok? ==> r.value == Turn(turn.reply + Contents(ps), AddFragments(turn.calls, Fragments(ps))))
    decreases |ps|
  {
    if ps == [] {
      assert turn.reply + "" == turn.reply;
    } else {
      InCons(ps);
      var p := ps[0];
      assert p in ps;
      var next := Ask(turn, p);
      if next.Ok? {
        AskFolds(next.value, ps[1..]);
        var more, fragments := Contents(ps[1..]), Fragments(ps[1..]);
        if p.Delta? {
          AddFragmentsAcross(turn.calls, p.fragments, fragments);
          Assoc(turn.reply, GetOr(p.content, ""), more);
        } else {
          assert "" + more == more && [] + fragments == fragments;
        }
      }
    }
  }

  lemma {:induction false} MeasureFolds(m: Measured, ps: seq<Parsed>)
    ensures var r := MeasureParses(m, ps);
      && (r.Ok? <==> forall p :: p in ps ==> MeasureReads(p))
      && (r.Ok? ==> r.value == Measured(m.completion + Contents(ps), m.toolCalls + |Fragments(ps)|))
    decreases |ps|
  {
    if ps == [] {
      assert m.completion + "" == m.completion;
    } else {
      InCons(ps);
      var p := ps[0];
      assert p in ps;
      var next := Measure(m, p);
      if next.Ok? {
        MeasureFolds(next.value, ps[1..]);
        var more, fragments := Contents(ps[1..]), Fragments(ps[1..]);
        if p.Delta? {
          assert (m.completion + GetOr(p.content, "")) + more == m.completion + (GetOr(p.content, "") + more);
        } else {
          assert "" + more == more && [] + fragments == fragments;
        }
      }
    }
  }

  /** The two readers of one text: when each succeeds, and that they then agree. */
  lemma ReadersAgree(text: string, parse: string -> Parsed)
    ensures var ps := Parses(Lines(text), parse);
      var asked := AskLines(SILENT, Lines(text), parse);
      var measured := MeasureLines(Measured("", 0), Lines(text), parse);
      && (asked.Ok? <==> forall p :: p in ps ==> AskReads(p))
      && (measured.Ok? <==> forall p :: p in ps ==> MeasureReads(p))
      && (asked.Ok? ==> asked.value == Turn(Contents(ps), AddFragments([], Fragments(ps))))
      && (measured.Ok? ==> measured.value == Measured(Contents(ps), |Fragments(ps)|))
  {
    var ps := Parses(Lines(text), parse);
    AskSkipsLines(SILENT, Lines(text), parse);
    AskFolds(SILENT, ps);
    MeasureSkipsLines(Measured("", 0), Lines(text), parse);
    MeasureFolds(Measured("", 0), ps);
    assert "" + Contents(ps) == Contents(ps);
  }

  // ---------- Tool calls ----------

  /** A fragment that does not say which call it belongs to belongs to call 0. */
  function Place(f: Fragment): int {
    if f.index.Some? then f.index.value else 0
  }

  /** The indices of the fragments, in order of first appearance. */
  function Firsts(fragments: seq<Fragment>): seq<int> {
    if fragments == [] then []
    else
      var earlier := Firsts(fragments[..|fragments| - 1]);
      var index := Place(fragments[|fragments| - 1]);
      if index in earlier then earlier else earlier + [index]
  }

  /** The argument fragments of one index, joined in order. */
  function Arguments(fragments: seq<Fragment>, index: int): string {
    if fragments == [] then ""
    else
      var f := fragments[|fragments| - 1];
      Arguments(fragments[..|fragments| - 1], index) + if Place(f) == index then GivenText(f.args) else ""
  }

  /** The last id that a fragment of this index carries. */
  function LastId(fragments: seq<Fragment>, index: int): string {
    if fragments == [] then ""
    else
      var f := fragments[|fragments| - 1];
      if Place(f) == index && f.id.Some? then f.id.value else LastId(fragments[..|fragments| - 1], index)
  }

  function LastName(fragments: seq<Fragment>, index: int): string {
    if fragments == [] then ""
    else
      var f := fragments[|fragments| - 1];
      if Place(f) == index && f.name.Some? then f.name.value else LastName(fragments[..|fragments| - 1], index)
  }

  function CallOf(fragments: seq<Fragment>, index: int): ToolCall {
    ToolCall(LastId(fragments, index), LastName(fragments, index), Arguments(fragments, index))
  }

  lemma {:induction false} UnseenIsEmpty(fragments: seq<Fragment>, index: int)
    requires index !in Firsts(fragments)
    ensures CallOf(fragments, index) == ToolCall("", "", "")
  {
    if fragments == [] {
    } else {
      UnseenIsEmpty(fragments[..|fragments| - 1], index);
    }
  }

  predicate NoRepeats(indices: seq<int>) {
    forall i, j :: 0 <= i < j < |indices| ==> indices[i] != indices[j]
  }

  lemma {:induction false} FindMeans(calls: seq<Slot>, index: int)
    ensures Find(calls, index) == |calls| ==> forall k :: 0 <= k < |calls| ==> calls[k].index != index
  {
    if calls == [] {
    } else {
      FindMeans(calls[..|calls| - 1], index);
    }
  }

  predicate Assembles(calls: seq<Slot>, fragments: seq<Fragment>) {
    var order := Firsts(fragments);
    && |calls| == |order| && NoRepeats(order)
    && forall k :: 0 <= k < |calls| ==> calls[k] == Slot(order[k], CallOf(fragments, order[k]))
  }

  /** A further fragment changes the call of its own index alone. */
  lemma CallOfNext(init: seq<Fragment>, f: Fragment, index: int)
    ensures CallOf(init + [f], index) ==
      if index == Place(f) then Merged(CallOf(init, index), f) else CallOf(init, index)
  {
    assert (init + [f])[..|init|] == init;
    assert Arguments(init, index) + "" == Arguments(init, index);
  }

  lemma FirstsNext(init: seq<Fragment>, f: Fragment)
    ensures Firsts(init + [f]) == Firsts(init) + if Place(f) in Firsts(init) then [] else [Place(f)]
  {
    assert (init + [f])[..|init|] == init;
    assert Firsts(init) + [] == Firsts(init);
  }

  lemma KnownCall(calls: seq<Slot>, init: seq<Fragment>, f: Fragment, k: nat)
    requires Assembles(calls, init) && k < |calls| && calls[k].index == Place(f)
    ensures Assembles(calls[k := Slot(Place(f), Merged(calls[k].call, f))], init + [f])
  {
    var order := Firsts(init);
    assert order[k] == Place(f);
    FirstsNext(init, f);
    forall i | 0 <= i < |order| { CallOfNext(init, f, order[i]); }
  }

  lemma NewCall(calls: seq<Slot>, init: seq<Fragment>, f: Fragment)
    requires Assembles(calls, init) && Place(f) !in Firsts(init)
    ensures Assembles(calls + [Slot(Place(f), Merged(ToolCall("", "", ""), f))], init + [f])
  {
    var order := Firsts(init);
    FirstsNext(init, f);
    UnseenIsEmpty(init, Place(f));
    CallOfNext(init, f, Place(f));
    forall i | 0 <= i < |order| { CallOfNext(init, f, order[i]); }
  }

  /** Fragments assemble into one call per index: first-seen order, last id and name, arguments joined. */
  lemma {:induction false} CallsAssemble(fragments: seq<Fragment>)
    ensures Assembles(AddFragments([], fragments), fragments)
  {
    if fragments == [] {
    } else {
      var init, f := fragments[..|fragments| - 1], fragments[|fragments| - 1];
      assert fragments == init + [f];
      CallsAssemble(init);
      var before := AddFragments([], init);
      var k := Find(before, Place(f));
      if k < |before| {
        KnownCall(before, init, f, k);
      } else {
        FindMeans(before, Place(f));
        assert forall i :: 0 <= i < |before| ==> before[i].index == Firsts(init)[i];
        NewCall(before, init, f);
      }
    }
  }

  function NamedCalls(fragments: seq<Fragment>, order: seq<int>): seq<ToolCall> {
    if order == [] then []
    else
      var last := CallOf(fragments, order[|order| - 1]);
      NamedCalls(fragments, order[..|order| - 1]) + if last.name != "" then [last] else []
  }

  lemma {:induction false} AssembledNames(fragments: seq<Fragment>, calls: seq<Slot>, order: seq<int>)
    requires |calls| == |order|
    requires forall k :: 0 <= k < |calls| ==> calls[k] == Slot(order[k], CallOf(fragments, order[k]))
    ensures Assembled(calls) == NamedCalls(fragments, order)
  {
    if calls == [] {
    } else {
      AssembledNames(fragments, calls[..|calls| - 1], order[..|order| - 1]);
    }
  }

  /** What askOnce answers: the joined contents, and the named calls in order of first appearance. */
  lemma AnswerReads(text: string, parse: string -> Parsed)
    ensures var ps := Parses(Lines(text), parse); var fragments := Fragments(ps);
      var answer := Answered(AskLines(SILENT, Lines(text), parse));
      && (answer.Ok? <==> forall p :: p in ps ==> AskReads(p))
      && (answer.Ok? ==> answer.value == Answer(Contents(ps), NamedCalls(fragments, Firsts(fragments))))
  {
    ReadersAgree(text, parse);
    var fragments := Fragments(Parses(Lines(text), parse));
    CallsAssemble(fragments);
    AssembledNames(fragments, AddFragments([], fragments), Firsts(fragments));
  }
}
