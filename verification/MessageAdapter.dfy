/** The chat message reducer: folding a live agent event stream into a message list. */
module MessageAdapter {
  import opened Wrappers
  import opened Json

  // ---------- Data model ----------

  datatype Kind =
    | Text | Tips | ToolCall | ToolGroup | AgentStatus
    | AcpPermission | AcpToolCall | CodexPermission | CodexToolCall | Plan

  datatype Position = Left | Right | Center | Pop

  datatype Status = Finish | Pending | Error | Work

  /** Chunk is the content of a text message, Tools an array of tool records, Body any other object. */
  datatype Content =
    | Chunk(text: string, rest: Fields)
    | Tools(tools: seq<Fields>)
    | Body(fields: Fields)

  datatype RawMessage = RawMessage(
    id: string,
    msgId: Option<string>,
    conversationId: string,
    kind: Kind,
    content: Content,
    createdAt: Option<int>,
    position: Option<Position>,
    status: Option<Status>)

  predicate WellTyped(m: RawMessage) {
    match m.kind
    case Text => m.content.Chunk?
    case ToolGroup => !m.content.Chunk?
    case _ => m.content.Body?
  }

  type Message = m: RawMessage | WellTyped(m)
    witness RawMessage("", None, "", Text, Chunk("", map[]), None, None, None)

  function CallId(tool: Fields): Value {
    Field(tool, "callId")
  }

  /** A tool group whose content is an array: the messages that the keyed merge handles. */
  predicate IsGroup(m: Message) {
    m.kind == ToolGroup && m.content.Tools?
  }

  predicate IsKeyed(kind: Kind) {
    kind in {ToolCall, CodexToolCall, AcpToolCall, Plan}
  }

  /** The identity that a tool call, an agent's tool call or a plan is merged by. */
  function Key(m: Message): Value
    requires IsKeyed(m.kind)
  {
    if m.kind == ToolCall then Field(m.content.fields, "callId")
    else if m.kind == CodexToolCall then Field(m.content.fields, "toolCallId")
    else if m.kind == Plan then Field(m.content.fields, "sessionId")
    else
      match Field(m.content.fields, "update")
      case Obj(update) => Field(update, "toolCallId")
      case _ => Undefined
  }

  // ---------- Specification: an insertion-ordered map keyed by callId ----------

  /** The record a map built from this array holds for c: the last of its duplicates. */
  function Last(tools: seq<Fields>, c: Value): Option<Fields> {
    if tools == [] then None
    else if CallId(tools[|tools| - 1]) == c then Some(tools[|tools| - 1])
    else Last(tools[..|tools| - 1], c)
  }

  /** Setting a key that is present keeps its place; a new key goes to the end. */
  function Put(pending: seq<Fields>, tool: Fields): seq<Fields> {
    if Last(pending, CallId(tool)).None? then pending + [tool] else Replace(pending, tool)
  }

  function Replace(pending: seq<Fields>, tool: Fields): seq<Fields> {
    if pending == [] then []
    else
      var n := |pending| - 1;
      if CallId(pending[n]) == CallId(tool) then pending[..n] + [tool]
      else Replace(pending[..n], tool) + [pending[n]]
  }

  function Without(pending: seq<Fields>, c: Value): (r: seq<Fields>)
    ensures |r| == |pending| - if Last(pending, c).Some? then 1 else 0
  {
    if pending == [] then []
    else
      var n := |pending| - 1;
      if CallId(pending[n]) == c then pending[..n] else Without(pending[..n], c) + [pending[n]]
  }

  /** The ordered map built from an array of tools: later duplicates replace earlier ones. */
  function Squash(tools: seq<Fields>): seq<Fields> {
    if tools == [] then [] else Put(Squash(tools[..|tools| - 1]), tools[|tools| - 1])
  }

  /** One pass over an array of tools: the updated array and the updates still unused. */
  function MergeTools(tools: seq<Fields>, pending: seq<Fields>): (r: (seq<Fields>, seq<Fields>))
    ensures |r.0| == |tools|
  {
    if tools == [] then ([], pending)
    else
      var tool := tools[|tools| - 1];
      var (init, left) := MergeTools(tools[..|tools| - 1], pending);
      var update := Last(left, CallId(tool));
      if update.Some? then (init + [tool + update.value], Without(left, CallId(tool)))
      else (init + [tool], left)
  }

  /** The same pass over every tool group of the list, in list order. */
  function MergeList(list: seq<Message>, pending: seq<Fields>): (r: (seq<Message>, seq<Fields>))
    ensures |r.0| == |list|
  {
    if list == [] then ([], pending)
    else
      var n := |list| - 1;
      var (init, left) := MergeList(list[..n], pending);
      if IsGroup(list[n]) then
        var (tools, rest) := MergeTools(list[n].content.tools, left);
        (init + [list[n].(content := Tools(tools))], rest)
      else (init + [list[n]], left)
  }

  // ---------- Specification: composing one message ----------

  function FindKeyed(list: seq<Message>, m: Message): (k: nat)
    requires IsKeyed(m.kind)
    ensures k <= |list|
    ensures k < |list| ==> list[k].kind == m.kind && Key(list[k]) == Key(m)
    ensures forall i :: 0 <= i < k ==> !(list[i].kind == m.kind && Key(list[i]) == Key(m))
  {
    if list == [] then 0
    else if list[0].kind == m.kind && Key(list[0]) == Key(m) then 0
    else 1 + FindKeyed(list[1..], m)
  }

  /** `{ ...last, ...message, id: last.id }` */
  function Overlay(last: Message, m: Message): Message {
    m.(id := last.id,
       msgId := OrElse(m.msgId, last.msgId),
       createdAt := OrElse(m.createdAt, last.createdAt),
       position := OrElse(m.position, last.position),
       status := OrElse(m.status, last.status))
  }

  function ComposeGroup(m: Message, list: seq<Message>): seq<Message>
    requires IsGroup(m)
  {
    var pending := Squash(m.content.tools);
    var (updated, left) := MergeList(list, pending);
    if left == [] then updated else updated + [m.(content := Tools(left))]
  }

  function ComposeKeyed(m: Message, list: seq<Message>): seq<Message>
    requires IsKeyed(m.kind)
  {
    var k := FindKeyed(list, m);
    if k < |list| then list[k := list[k].(content := Body(list[k].content.fields + m.content.fields))]
    else list + [m]
  }

  function ComposeStreaming(m: Message, list: seq<Message>): seq<Message>
    requires list != []
  {
    var last := list[|list| - 1];
    if last.msgId != m.msgId || last.kind != m.kind then list + [m]
    else if m.kind == Text then
      list[|list| - 1 := Overlay(last, m).(content := Chunk(last.content.text + m.content.text, m.content.rest))]
    else list[|list| - 1 := Overlay(last, m)]
  }

  function Compose(message: Option<Message>, list: seq<Message>): seq<Message> {
    if message.None? then list
    else if list == [] then [message.value]
    else if IsGroup(message.value) then ComposeGroup(message.value, list)
    else if IsKeyed(message.value.kind) then ComposeKeyed(message.value, list)
    else ComposeStreaming(message.value, list)
  }

  function Fold(stream: seq<Option<Message>>): seq<Message> {
    if stream == [] then [] else Compose(stream[|stream| - 1], Fold(stream[..|stream| - 1]))
  }

  // ---------- The reducer ----------

  method OrderedMapOf(tools: seq<Fields>) returns (pending: seq<Fields>)
    ensures pending == Squash(tools)
  {
    pending := [];
    for i := 0 to |tools|
      invariant pending == Squash(tools[..i])
    {
      assert tools[..i + 1][..i] == tools[..i];
      pending := Put(pending, tools[i]);
    }
    assert tools[..|tools|] == tools;
  }

  method MergeInto(tools: seq<Fields>, pending: seq<Fields>)
    returns (merged: bool, newContent: seq<Fields>, left: seq<Fields>)
    ensures (newContent, left) == MergeTools(tools, pending)
    ensures !merged ==> newContent == tools && left == pending
    ensures merged ==> |left| < |pending|
  {
    merged, newContent, left := false, [], pending;
    for i := 0 to |tools|
      invariant (newContent, left) == MergeTools(tools[..i], pending)
      invariant !merged ==> newContent == tools[..i] && left == pending
      invariant |left| <= |pending|
      invariant merged ==> |left| < |pending|
    {
      assert tools[..i + 1][..i] == tools[..i];
      var update := Last(left, CallId(tools[i]));
      if update.None? {
        newContent := newContent + [tools[i]];
      } else {
        merged := true;
        left := Without(left, CallId(tools[i]));
        newContent := newContent + [tools[i] + update.value];
      }
    }
    assert tools[..|tools|] == tools;
  }

  method MergeToolGroup(message: Message, list: seq<Message>) returns (r: seq<Message>)
    requires IsGroup(message)
    ensures r == ComposeGroup(message, list)
  {
    var remaining := OrderedMapOf(message.content.tools);
    if |remaining| == 0 {
      MergeNothing(list);
      return list;
    }
    ghost var pending := remaining;
    var didUpdate, updatedList := false, [];
    for i := 0 to |list|
      invariant (updatedList, remaining) == MergeList(list[..i], pending)
      invariant !didUpdate ==> updatedList == list[..i]
    {
      assert list[..i + 1][..i] == list[..i];
      var existing := list[i];
      if IsGroup(existing) {
        var merged, newContent, left := MergeInto(existing.content.tools, remaining);
        remaining := left;
        if merged {
          didUpdate := true;
          existing := existing.(content := Tools(newContent));
        }
      }
      updatedList := updatedList + [existing];
    }
    assert list[..|list|] == list;
    var base := if didUpdate then updatedList else list;
    if |remaining| > 0 {
      return base + [message.(content := Tools(remaining))];
    }
    return base;
  }

  method MergeByKey(message: Message, list: seq<Message>) returns (r: seq<Message>)
    requires IsKeyed(message.kind)
    ensures r == ComposeKeyed(message, list)
  {
    for i := 0 to |list|
      invariant forall j :: 0 <= j < i ==> !(list[j].kind == message.kind && Key(list[j]) == Key(message))
    {
      var msg := list[i];
      if msg.kind == message.kind && Key(msg) == Key(message) {
        assert FindKeyed(list, message) == i;
        return list[i := msg.(content := Body(msg.content.fields + message.content.fields))];
      }
    }
    return list + [message];
  }

  method ComposeMessage(message: Option<Message>, list: seq<Message>) returns (r: seq<Message>)
    ensures r == Compose(message, list)
  {
    if message.None? { return list; }
    var m := message.value;
    if |list| == 0 { return [m]; }
    var last := list[|list| - 1];
    if IsGroup(m) {
      r := MergeToolGroup(m, list);
      return;
    }
    if IsKeyed(m.kind) {
      r := MergeByKey(m, list);
      return;
    }
    if last.msgId != m.msgId || last.kind != m.kind { return list + [m]; }
    if m.kind == Text && last.kind == Text {
      var merged := Overlay(last, m).(content := Chunk(last.content.text + m.content.text, m.content.rest));
      return list[|list| - 1 := merged];
    }
    return list[|list| - 1 := Overlay(last, m)];
  }

  lemma {:induction false} MergeNothing(list: seq<Message>)
    ensures MergeList(list, []) == (list, [])
  {
    if list == [] {
    } else {
      var n := |list| - 1;
      MergeNothing(list[..n]);
      if IsGroup(list[n]) { MergeNoTools(list[n].content.tools); }
      assert list == list[..n] + [list[n]];
    }
  }

  lemma {:induction false} MergeNoTools(tools: seq<Fields>)
    ensures MergeTools(tools, []) == (tools, [])
  {
    if tools == [] {
    } else {
      var n := |tools| - 1;
      MergeNoTools(tools[..n]);
      assert tools == tools[..n] + [tools[n]];
    }
  }
}
