/** What folding a stream of messages keeps, loses and computes. */
module MessageTheorems {
  import opened Wrappers
  import opened Json
  import opened KeyedStore
  import opened Sequences
  import opened MessageAdapter

  // ---------- Identity: nothing is dropped, reordered or re-identified ----------

  lemma {:induction false} MergeListFrame(list: seq<Message>, pending: seq<Fields>)
    ensures forall i :: 0 <= i < |list| ==>
      && var r := MergeList(list, pending).0[i];
      && IsGroup(r) == IsGroup(list[i])
      && r == list[i].(content := r.content)
      && (!IsGroup(list[i]) ==> r == list[i])
  {
    if list == [] {
    } else {
      MergeListFrame(list[..|list| - 1], pending);
    }
  }

  lemma ComposeKeepsIdentity(message: Option<Message>, list: seq<Message>)
    ensures var r := Compose(message, list);
      && |list| <= |r| <= |list| + 1
      && (forall i :: 0 <= i < |list| ==>
            r[i].id == list[i].id && r[i].kind == list[i].kind && r[i].msgId == list[i].msgId)
      && (|r| > |list| ==> message.Some? && r[|list|] == message.value.(content := r[|list|].content))
  {
    if message.Some? && list != [] && IsGroup(message.value) {
      MergeListFrame(list, Squash(message.value.content.tools));
    }
  }

  function Ids(list: seq<Message>): seq<string> {
    seq(|list|, i requires 0 <= i < |list| => list[i].id)
  }

  /** What was in the list at any moment is a prefix of what is in it later, one more at most an event. */
  lemma {:induction false} FoldOnlyExtends(stream: seq<Option<Message>>, n: nat)
    requires n <= |stream|
    ensures Ids(Fold(stream[..n])) <= Ids(Fold(stream))
    ensures |Fold(stream)| <= |Fold(stream[..n])| + (|stream| - n)
  {
    if n == |stream| {
      assert stream[..n] == stream;
    } else {
      var init := stream[..|stream| - 1];
      assert init[..n] == stream[..n];
      FoldOnlyExtends(init, n);
      ComposeKeepsIdentity(stream[|stream| - 1], Fold(init));
    }
  }

  // ---------- Text: per msg_id, concatenation in arrival order ----------

  function TextChunk(m: Message, id: Option<string>): string {
    if m.kind == Text && m.msgId == id then m.content.text else ""
  }

  function TextOf(list: seq<Message>, id: Option<string>): string {
    if list == [] then "" else TextOf(list[..|list| - 1], id) + TextChunk(list[|list| - 1], id)
  }

  function ArrivedText(stream: seq<Option<Message>>, id: Option<string>): string {
    if stream == [] then ""
    else
      var last := stream[|stream| - 1];
      ArrivedText(stream[..|stream| - 1], id) + if last.Some? then TextChunk(last.value, id) else ""
  }

  lemma {:induction false} SameChunksSameText(a: seq<Message>, b: seq<Message>, id: Option<string>)
    requires |a| == |b|
    requires forall i :: 0 <= i < |a| ==> TextChunk(a[i], id) == TextChunk(b[i], id)
    ensures TextOf(a, id) == TextOf(b, id)
  {
    if a == [] {
    } else {
      SameChunksSameText(a[..|a| - 1], b[..|b| - 1], id);
    }
  }

  /** Rewriting messages in place and perhaps appending one, with no text changed in between. */
  lemma AppendedText(list: seq<Message>, r: seq<Message>, m: Message, id: Option<string>)
    requires |list| <= |r| <= |list| + 1
    requires forall i :: 0 <= i < |list| ==> TextChunk(r[i], id) == TextChunk(list[i], id)
    requires TextChunk(m, id) == if |r| > |list| then TextChunk(r[|list|], id) else ""
    ensures TextOf(r, id) == TextOf(list, id) + TextChunk(m, id)
  {
    var head := r[..|list|];
    forall i | 0 <= i < |list| ensures TextChunk(list[i], id) == TextChunk(head[i], id) {
      assert head[i] == r[i];
    }
    SameChunksSameText(list, head, id);
    if |r| == |list| {
      assert head == r;
    } else {
      LastAppended(head, r, id);
    }
  }

  lemma LastAppended(head: seq<Message>, r: seq<Message>, id: Option<string>)
    requires |r| == |head| + 1 && head == r[..|head|]
    ensures TextOf(r, id) == TextOf(head, id) + TextChunk(r[|head|], id)
  {
    assert r == head + [r[|head|]];
    TextOfAppend(head, r[|head|], id);
  }

  lemma TextOfAppend(list: seq<Message>, m: Message, id: Option<string>)
    ensures TextOf(list + [m], id) == TextOf(list, id) + TextChunk(m, id)
  {
    assert (list + [m])[..|list|] == list;
  }

  lemma StreamingAddsText(m: Message, list: seq<Message>, id: Option<string>)
    requires list != []
    ensures TextOf(ComposeStreaming(m, list), id) == TextOf(list, id) + TextChunk(m, id)
  {
    var init, last, r := list[..|list| - 1], list[|list| - 1], ComposeStreaming(m, list);
    if last.msgId != m.msgId || last.kind != m.kind {
      TextOfAppend(list, m, id);
    } else {
      assert list == init + [last] && r == init + [r[|list| - 1]];
      TextOfAppend(init, last, id);
      TextOfAppend(init, r[|list| - 1], id);
      Assoc(TextOf(init, id), TextChunk(last, id), TextChunk(m, id));
    }
  }

  lemma ComposeAddsText(m: Message, list: seq<Message>, id: Option<string>)
    ensures TextOf(Compose(Some(m), list), id) == TextOf(list, id) + TextChunk(m, id)
  {
    var r := Compose(Some(m), list);
    if list != [] && IsGroup(m) {
      MergeListFrame(list, Squash(m.content.tools));
      AppendedText(list, r, m, id);
    } else if list == [] || IsKeyed(m.kind) {
      AppendedText(list, r, m, id);
    } else {
      StreamingAddsText(m, list, id);
    }
  }

  lemma {:induction false} FoldConcatenatesText(stream: seq<Option<Message>>, id: Option<string>)
    ensures TextOf(Fold(stream), id) == ArrivedText(stream, id)
  {
    if stream == [] {
    } else {
      var n := |stream| - 1;
      FoldConcatenatesText(stream[..n], id);
      if stream[n].Some? { ComposeAddsText(stream[n].value, Fold(stream[..n]), id); }
    }
  }

  ghost predicate NoAdjacentText(list: seq<Message>) {
    forall i :: 0 < i < |list| && list[i - 1].kind == Text && list[i].kind == Text ==>
      list[i - 1].msgId != list[i].msgId
  }

  lemma {:induction false} FoldSeparatesText(stream: seq<Option<Message>>)
    ensures NoAdjacentText(Fold(stream))
  {
    if stream == [] {
    } else {
      var n := |stream| - 1;
      FoldSeparatesText(stream[..n]);
      ComposeKeepsIdentity(stream[n], Fold(stream[..n]));
    }
  }

  // ---------- Tool groups: the list is a keyed store ----------

  /** The first record of the array carrying c. */
  function First(tools: seq<Fields>, c: Value): Option<Fields> {
    if tools == [] then None
    else
      var earlier := First(tools[..|tools| - 1], c);
      var last := tools[|tools| - 1];
      if earlier.Some? then earlier else if CallId(last) == c then Some(last) else None
  }

  function CountTools(tools: seq<Fields>, c: Value): nat {
    if tools == [] then 0
    else CountTools(tools[..|tools| - 1], c) + if CallId(tools[|tools| - 1]) == c then 1 else 0
  }

  function ToolsOf(m: Message): seq<Fields> {
    if IsGroup(m) then m.content.tools else []
  }

  /** How many tool records of the list carry callId c. */
  function Count(list: seq<Message>, c: Value): nat {
    if list == [] then 0 else Count(list[..|list| - 1], c) + CountTools(ToolsOf(list[|list| - 1]), c)
  }

  /** The first record carrying c, as the list shows it. */
  function Lookup(list: seq<Message>, c: Value): Option<Kept> {
    if list == [] then None
    else
      var n := |list| - 1;
      var earlier := Lookup(list[..n], c);
      if earlier.Some? then earlier
      else
        var here := First(ToolsOf(list[n]), c);
        if here.Some? then Some(Kept(list[n].id, here.value)) else None
  }

  /** The store a reader would keep over a stream. */
  function Store(stream: seq<Option<Message>>, c: Value): Option<Kept> {
    if stream == [] then None
    else
      var last := stream[|stream| - 1];
      var before := Store(stream[..|stream| - 1], c);
      if last.None? then before else Filed(before, last.value.id, Last(ToolsOf(last.value), c))
  }

  /** No callId occurs twice. */
  predicate Distinct(tools: seq<Fields>) {
    tools == [] ||
    (Distinct(tools[..|tools| - 1]) && Last(tools[..|tools| - 1], CallId(tools[|tools| - 1])).None?)
  }

  lemma FirstSnoc(tools: seq<Fields>, t: Fields, c: Value)
    ensures First(tools + [t], c) ==
      if First(tools, c).Some? then First(tools, c) else if CallId(t) == c then Some(t) else None
    ensures CountTools(tools + [t], c) == CountTools(tools, c) + if CallId(t) == c then 1 else 0
  {
  }

  lemma Snoc(tools: seq<Fields>, t: Fields, c: Value)
    ensures Last(tools + [t], c) == if CallId(t) == c then Some(t) else Last(tools, c)
    ensures Distinct(tools + [t]) <==> Distinct(tools) && Last(tools, CallId(t)).None?
  {
  }

  lemma {:induction false} CountZero(tools: seq<Fields>, c: Value)
    ensures CountTools(tools, c) == 0 <==> First(tools, c).None?
    ensures First(tools, c).None? <==> Last(tools, c).None?
  {
    if tools == [] {
    } else {
      CountZero(tools[..|tools| - 1], c);
    }
  }

  lemma {:induction false} OneIsFirst(tools: seq<Fields>, c: Value)
    requires CountTools(tools, c) <= 1
    ensures Last(tools, c) == First(tools, c)
  {
    if tools == [] {
    } else {
      CountZero(tools[..|tools| - 1], c);
      if CallId(tools[|tools| - 1]) != c { OneIsFirst(tools[..|tools| - 1], c); }
    }
  }

  lemma {:induction false} DistinctCounts(tools: seq<Fields>, c: Value)
    requires Distinct(tools)
    ensures CountTools(tools, c) == if Last(tools, c).Some? then 1 else 0
  {
    if tools == [] {
    } else {
      DistinctCounts(tools[..|tools| - 1], c);
      CountZero(tools[..|tools| - 1], c);
    }
  }

  lemma {:induction false} Repeated(tools: seq<Fields>) returns (c: Value)
    requires !Distinct(tools)
    ensures CountTools(tools, c) > 1
  {
    var n := |tools| - 1;
    if Distinct(tools[..n]) {
      c := CallId(tools[n]);
      CountZero(tools[..n], c);
    } else {
      c := Repeated(tools[..n]);
    }
  }

  lemma {:induction false} ReplaceGets(pending: seq<Fields>, t: Fields, c: Value)
    ensures Last(Replace(pending, t), c) ==
      if CallId(t) == c && Last(pending, c).Some? then Some(t) else Last(pending, c)
  {
    if pending == [] {
    } else {
      var init, last := pending[..|pending| - 1], pending[|pending| - 1];
      if CallId(last) == CallId(t) {
        Snoc(init, t, c);
      } else {
        ReplaceGets(init, t, c);
        Snoc(Replace(init, t), last, c);
      }
    }
  }

  lemma {:induction false} ReplaceDistinct(pending: seq<Fields>, t: Fields)
    requires Distinct(pending)
    ensures Distinct(Replace(pending, t))
  {
    if pending == [] {
    } else {
      var init, last := pending[..|pending| - 1], pending[|pending| - 1];
      if CallId(last) == CallId(t) {
        Snoc(init, t, CallId(t));
      } else {
        ReplaceDistinct(init, t);
        ReplaceGets(init, t, CallId(last));
        Snoc(Replace(init, t), last, CallId(last));
      }
    }
  }

  lemma {:induction false} SquashIsLast(tools: seq<Fields>, c: Value)
    ensures Distinct(Squash(tools))
    ensures Last(Squash(tools), c) == Last(tools, c)
  {
    if tools == [] {
    } else {
      var n := |tools| - 1;
      var p := Squash(tools[..n]);
      SquashIsLast(tools[..n], c);
      ReplaceGets(p, tools[n], c);
      ReplaceDistinct(p, tools[n]);
      Snoc(p, tools[n], c);
    }
  }

  lemma {:induction false} WithoutGets(pending: seq<Fields>, k: Value, c: Value)
    requires Distinct(pending)
    ensures Last(Without(pending, k), c) == if c == k then None else Last(pending, c)
  {
    if pending == [] {
    } else {
      var init, last := pending[..|pending| - 1], pending[|pending| - 1];
      if CallId(last) != k {
        WithoutGets(init, k, c);
        Snoc(Without(init, k), last, c);
      }
    }
  }

  lemma {:induction false} WithoutDistinct(pending: seq<Fields>, k: Value)
    requires Distinct(pending)
    ensures Distinct(Without(pending, k))
  {
    if pending == [] {
    } else {
      var init, last := pending[..|pending| - 1], pending[|pending| - 1];
      if CallId(last) != k {
        WithoutDistinct(init, k);
        WithoutGets(init, k, CallId(last));
        Snoc(Without(init, k), last, CallId(last));
      }
    }
  }

  function Overridden(t: Option<Fields>, update: Option<Fields>): Option<Fields> {
    if t.Some? && update.Some? then Some(t.value + update.value) else t
  }

  /** What a pass over tools has done for c once these updates are left. */
  ghost predicate MergedTools(
    tools: seq<Fields>, pending: seq<Fields>, r: seq<Fields>, left: seq<Fields>, c: Value)
  {
    && Last(left, c) == (if First(tools, c).Some? then None else Last(pending, c))
    && First(r, c) == Overridden(First(tools, c), Last(pending, c))
    && CountTools(r, c) == CountTools(tools, c)
  }

  lemma MergedSnoc(
    tools: seq<Fields>, t: Fields, pending: seq<Fields>, r: seq<Fields>, left: seq<Fields>, c: Value)
    requires Distinct(left)
    requires MergedTools(tools, pending, r, left, c)
    ensures var u := Last(left, CallId(t));
      if u.Some? then
        MergedTools(tools + [t], pending, r + [t + u.value], Without(left, CallId(t)), c)
      else MergedTools(tools + [t], pending, r + [t], left, c)
  {
    var u := Last(left, CallId(t));
    var t' := if u.Some? then t + u.value else t;
    if u.Some? { LastHasKey(left, CallId(t)); }
    assert CallId(t') == CallId(t);
    FirstSnoc(tools, t, c);
    FirstSnoc(r, t', c);
    WithoutGets(left, CallId(t), c);
  }

  lemma {:induction false} LastHasKey(tools: seq<Fields>, c: Value)
    ensures Last(tools, c).Some? ==> CallId(Last(tools, c).value) == c
  {
    if tools == [] {
    } else {
      LastHasKey(tools[..|tools| - 1], c);
    }
  }

  lemma {:induction false} MergeToolsGets(tools: seq<Fields>, pending: seq<Fields>, c: Value)
    requires Distinct(pending)
    ensures Distinct(MergeTools(tools, pending).1)
    ensures MergedTools(tools, pending, MergeTools(tools, pending).0, MergeTools(tools, pending).1, c)
  {
    if tools == [] {
    } else {
      var n := |tools| - 1;
      var (r, left) := MergeTools(tools[..n], pending);
      MergeToolsGets(tools[..n], pending, c);
      MergedSnoc(tools[..n], tools[n], pending, r, left, c);
      WithoutDistinct(left, CallId(tools[n]));
      assert tools == tools[..n] + [tools[n]];
    }
  }

  /** What the pass has done for c once it reaches the end of list with these updates left. */
  ghost predicate MergedFor(
    list: seq<Message>, pending: seq<Fields>, r: seq<Message>, left: seq<Fields>, c: Value)
  {
    && Last(left, c) == (if Lookup(list, c).Some? then None else Last(pending, c))
    && Lookup(r, c) == (if Lookup(list, c).None? then None else Filed(Lookup(list, c), "", Last(pending, c)))
    && Count(r, c) == Count(list, c)
  }

  lemma MergeSnocFor(list: seq<Message>, m: Message, pending: seq<Fields>,
                     r: seq<Message>, left: seq<Fields>, c: Value)
    requires Distinct(left) && MergedFor(list, pending, r, left, c) && IsGroup(m)
    ensures var (tools, rest) := MergeTools(m.content.tools, left);
      Distinct(rest) && MergedFor(list + [m], pending, r + [m.(content := Tools(tools))], rest, c)
  {
    var (tools, rest) := MergeTools(m.content.tools, left);
    LookupSnoc(list, m, c);
    LookupSnoc(r, m.(content := Tools(tools)), c);
    MergeToolsGets(m.content.tools, left, c);
  }

  lemma {:induction false} MergeListLooksUp(list: seq<Message>, pending: seq<Fields>, c: Value)
    requires Distinct(pending)
    ensures Distinct(MergeList(list, pending).1)
    ensures MergedFor(list, pending, MergeList(list, pending).0, MergeList(list, pending).1, c)
  {
    if list == [] {
    } else {
      var n := |list| - 1;
      var (r, left) := MergeList(list[..n], pending);
      MergeListLooksUp(list[..n], pending, c);
      assert list == list[..n] + [list[n]];
      if IsGroup(list[n]) {
        MergeSnocFor(list[..n], list[n], pending, r, left, c);
      } else {
        MergeSkipFor(list[..n], list[n], pending, r, left, c);
      }
    }
  }

  lemma MergeSkipFor(list: seq<Message>, m: Message, pending: seq<Fields>,
                     r: seq<Message>, left: seq<Fields>, c: Value)
    requires MergedFor(list, pending, r, left, c) && !IsGroup(m)
    ensures MergedFor(list + [m], pending, r + [m], left, c)
  {
    LookupSnoc(list, m, c);
    LookupSnoc(r, m, c);
  }

  lemma LookupSnoc(list: seq<Message>, m: Message, c: Value)
    ensures Count(list + [m], c) == Count(list, c) + CountTools(ToolsOf(m), c)
    ensures Lookup(list + [m], c) ==
      if Lookup(list, c).Some? then Lookup(list, c)
      else if First(ToolsOf(m), c).Some? then Some(Kept(m.id, First(ToolsOf(m), c).value))
      else None
  {
  }

  lemma {:induction false} CountIsLookup(list: seq<Message>, c: Value)
    ensures Count(list, c) == 0 <==> Lookup(list, c).None?
  {
    if list == [] {
    } else {
      CountIsLookup(list[..|list| - 1], c);
      CountZero(ToolsOf(list[|list| - 1]), c);
    }
  }

  lemma {:induction false} SameToolsSameStore(a: seq<Message>, b: seq<Message>, c: Value)
    requires |a| == |b|
    requires forall i :: 0 <= i < |a| ==> a[i].id == b[i].id && ToolsOf(a[i]) == ToolsOf(b[i])
    ensures Lookup(a, c) == Lookup(b, c) && Count(a, c) == Count(b, c)
  {
    if a == [] {
    } else {
      SameToolsSameStore(a[..|a| - 1], b[..|b| - 1], c);
    }
  }

  /**
   * A tool group whose content is not an array falls through to the streaming branch, and there
   * replaces the content of an array group of the same msg_id that ends the list: with records of c, here.
   */
  predicate Erases(m: Message, list: seq<Message>, c: Value) {
    && m.kind == ToolGroup && !m.content.Tools?
    && list != [] && list[|list| - 1].kind == ToolGroup && list[|list| - 1].msgId == m.msgId
    && CountTools(ToolsOf(list[|list| - 1]), c) > 0
  }

  /** No message of the stream erases records of c. */
  predicate NothingErased(stream: seq<Option<Message>>, c: Value) {
    stream == [] ||
    var init, last := stream[..|stream| - 1], stream[|stream| - 1];
    NothingErased(init, c) && (last.Some? ==> !Erases(last.value, Fold(init), c))
  }

  /** A stream whose tool groups all have array content erases nothing. */
  lemma {:induction false} ArraysEraseNothing(stream: seq<Option<Message>>, c: Value)
    requires forall i :: 0 <= i < |stream| && stream[i].Some? && stream[i].value.kind == ToolGroup ==>
      stream[i].value.content.Tools?
    ensures NothingErased(stream, c)
  {
    if stream == [] {
    } else {
      ArraysEraseNothing(stream[..|stream| - 1], c);
    }
  }

  /** What is erased was in the list and is gone from it. */
  lemma ErasedIsLost(m: Message, list: seq<Message>, c: Value)
    requires Erases(m, list, c)
    ensures var lost := CountTools(ToolsOf(list[|list| - 1]), c);
      lost > 0 && Count(Compose(Some(m), list), c) == Count(list, c) - lost
  {
    var init, last := list[..|list| - 1], list[|list| - 1];
    assert list == init + [last];
    assert Compose(Some(m), list) == init + [Overlay(last, m)];
    LookupSnoc(init, last, c);
    LookupSnoc(init, Overlay(last, m), c);
  }

  lemma ComposeGroupFiles(m: Message, list: seq<Message>, c: Value)
    requires IsGroup(m)
    ensures var r := ComposeGroup(m, list);
      && Lookup(r, c) == Filed(Lookup(list, c), m.id, Last(ToolsOf(m), c))
      && Count(r, c) == if Lookup(list, c).None? && Last(ToolsOf(m), c).Some? then 1 else Count(list, c)
  {
    var pending := Squash(m.content.tools);
    var (updated, left) := MergeList(list, pending);
    SquashIsLast(m.content.tools, c);
    MergeListLooksUp(list, pending, c);
    CountIsLookup(list, c);
    LeftIsAppended(updated, left, m, c);
  }

  /** Appending the updates left over files c if it is among them. */
  lemma LeftIsAppended(updated: seq<Message>, left: seq<Fields>, m: Message, c: Value)
    requires IsGroup(m) && Distinct(left)
    ensures var r := if left == [] then updated else updated + [m.(content := Tools(left))];
      && Lookup(r, c) == (
        if Lookup(updated, c).Some? || Last(left, c).None? then Lookup(updated, c)
        else Some(Kept(m.id, Last(left, c).value)))
      && Count(r, c) == Count(updated, c) + if Last(left, c).Some? then 1 else 0
  {
    DistinctCounts(left, c);
    OneIsFirst(left, c);
    CountZero(left, c);
    if left != [] { LookupSnoc(updated, m.(content := Tools(left)), c); }
  }

  /** One message updates the store exactly as a keyed store would; only the very first is taken as it is. */
  lemma ComposeFiles(m: Message, list: seq<Message>, c: Value)
    requires !Erases(m, list, c)
    requires list != [] || CountTools(ToolsOf(m), c) <= 1
    ensures var r := Compose(Some(m), list);
      && Lookup(r, c) == Filed(Lookup(list, c), m.id, Last(ToolsOf(m), c))
      && Count(r, c) == if Lookup(list, c).None? && Last(ToolsOf(m), c).Some? then 1 else Count(list, c)
  {
    if list == [] {
      CountZero(ToolsOf(m), c);
      OneIsFirst(ToolsOf(m), c);
      LookupSnoc([], m, c);
      assert [] + [m] == [m];
    } else if IsGroup(m) {
      ComposeGroupFiles(m, list, c);
    } else {
      var r := Compose(Some(m), list);
      ComposeKeepsIdentity(Some(m), list);
      if |r| > |list| {
        assert r == list + [m];
        LookupSnoc(list, m, c);
      } else {
        StreamedOver(m, list, c);
      }
    }
  }

  lemma StreamedOver(m: Message, list: seq<Message>, c: Value)
    requires !IsGroup(m) && list != [] && !Erases(m, list, c) && |Compose(Some(m), list)| == |list|
    ensures Lookup(Compose(Some(m), list), c) == Lookup(list, c)
    ensures Count(Compose(Some(m), list), c) == Count(list, c)
  {
    var r := Compose(Some(m), list);
    if m.kind == ToolGroup {
      var init, last := list[..|list| - 1], list[|list| - 1];
      assert list == init + [last] && r == init + [Overlay(last, m)];
      LookupSnoc(init, last, c);
      LookupSnoc(init, Overlay(last, m), c);
      CountZero(ToolsOf(last), c);
    } else {
      ComposeKeepsIdentity(Some(m), list);
      SameToolsSameStore(list, r, c);
    }
  }

  /** The first message of the stream that is a message at all. */
  function Head(stream: seq<Option<Message>>): Option<Message> {
    if stream == [] then None
    else
      var earlier := Head(stream[..|stream| - 1]);
      if earlier.Some? then earlier else stream[|stream| - 1]
  }

  function HeadTools(stream: seq<Option<Message>>): seq<Fields> {
    if Head(stream).Some? then ToolsOf(Head(stream).value) else []
  }

  lemma {:induction false} HeadStartsTheList(stream: seq<Option<Message>>)
    ensures Head(stream).None? <==> Fold(stream) == []
  {
    if stream == [] {
    } else {
      HeadStartsTheList(stream[..|stream| - 1]);
      ComposeKeepsIdentity(stream[|stream| - 1], Fold(stream[..|stream| - 1]));
    }
  }

  /** The list shows what the store keeps for c, once. */
  predicate Refines(stream: seq<Option<Message>>, c: Value) {
    && Lookup(Fold(stream), c) == Store(stream, c)
    && Count(Fold(stream), c) == if Store(stream, c).Some? then 1 else 0
  }

  lemma {:induction false} StartRefinesIff(stream: seq<Option<Message>>, c: Value)
    requires stream != [] && Head(stream[..|stream| - 1]).None?
    ensures Count(Fold(stream), c) == CountTools(HeadTools(stream), c)
    ensures Refines(stream, c) <==> CountTools(HeadTools(stream), c) <= 1
  {
    var n := |stream| - 1;
    HeadStartsTheList(stream[..n]);
    NothingStored(stream[..n], c);
    if stream[n].Some? {
      LookupSnoc([], stream[n].value, c);
      assert Fold(stream) == [] + [stream[n].value];
      if CountTools(HeadTools(stream), c) <= 1 { ComposeFiles(stream[n].value, [], c); }
    }
  }

  lemma {:induction false} NothingStored(stream: seq<Option<Message>>, c: Value)
    requires Head(stream).None?
    ensures Store(stream, c).None?
  {
    if stream == [] {
    } else {
      NothingStored(stream[..|stream| - 1], c);
    }
  }

  /** One more message keeps the refinement exactly when it erases nothing of c. */
  lemma StepRefinesIff(stream: seq<Option<Message>>, c: Value)
    requires stream != [] && Head(stream[..|stream| - 1]).Some? && Refines(stream[..|stream| - 1], c)
    ensures var last := stream[|stream| - 1];
      Refines(stream, c) <==> (last.Some? ==> !Erases(last.value, Fold(stream[..|stream| - 1]), c))
  {
    var init, last := stream[..|stream| - 1], stream[|stream| - 1];
    HeadStartsTheList(init);
    if last.Some? {
      if Erases(last.value, Fold(init), c) {
        ErasedIsLost(last.value, Fold(init), c);
      } else {
        ComposeFiles(last.value, Fold(init), c);
      }
    }
  }

  /** At every moment of the stream. */
  predicate AlwaysRefines(stream: seq<Option<Message>>, c: Value) {
    Refines(stream, c) && (stream == [] || AlwaysRefines(stream[..|stream| - 1], c))
  }

  lemma RefinesNow(stream: seq<Option<Message>>, c: Value)
    requires AlwaysRefines(stream, c)
    ensures Refines(stream, c)
  {
  }

  /**
   * Folding a stream refines the keyed store for c at every moment, exactly when the first message
   * does not repeat c and no message erases records of c.
   */
  lemma {:induction false} AlwaysRefinesIff(stream: seq<Option<Message>>, c: Value)
    ensures AlwaysRefines(stream, c) <==> NothingErased(stream, c) && CountTools(HeadTools(stream), c) <= 1
  {
    if stream == [] {
    } else {
      var init := stream[..|stream| - 1];
      AlwaysRefinesIff(init, c);
      if Head(init).None? {
        StartRefinesIff(stream, c);
        HeadStartsTheList(init);
      } else if AlwaysRefines(init, c) {
        RefinesNow(init, c);
        StepRefinesIff(stream, c);
      }
    }
  }

  /** In particular at its end. */
  lemma FoldRefinesStore(stream: seq<Option<Message>>, c: Value)
    requires NothingErased(stream, c)
    requires CountTools(HeadTools(stream), c) <= 1
    ensures Lookup(Fold(stream), c) == Store(stream, c)
    ensures Count(Fold(stream), c) == if Store(stream, c).Some? then 1 else 0
  {
    AlwaysRefinesIff(stream, c);
    RefinesNow(stream, c);
  }

  /** A stream on which a record is lost: `[{callId: 'a'}]`, and then an object for the same group. */
  lemma RecordIsLost()
    ensures var c := Str("a"); var tool: Fields := map["callId" := c];
      var group := RawMessage("1", None, "", ToolGroup, Tools([tool]), None, None, None);
      var other := RawMessage("2", None, "", ToolGroup, Body(map[]), None, None, None);
      var stream := [Some(group), Some(other)];
      Store(stream, c) == Some(Kept("1", tool)) && Lookup(Fold(stream), c).None?
  {
    var c := Str("a");
    var tool: Fields := map["callId" := c];
    var group := RawMessage("1", None, "", ToolGroup, Tools([tool]), None, None, None);
    var other := RawMessage("2", None, "", ToolGroup, Body(map[]), None, None, None);
    var stream: seq<Option<Message>> := [Some(group), Some(other)];
    assert stream[..1] == [Some(group)] && stream[..1][..0] == [] && [tool][..0] == [];
    assert Fold(stream[..1]) == [group];
    assert Fold(stream) == [Overlay(group, other)] && Fold(stream)[..0] == [];
    assert Store(stream[..1], c) == Some(Kept("1", tool));
  }

  lemma {:induction false} HeadDuplicatesStay(stream: seq<Option<Message>>, c: Value)
    requires NothingErased(stream, c)
    requires CountTools(HeadTools(stream), c) > 1
    ensures Count(Fold(stream), c) == CountTools(HeadTools(stream), c)
  {
    var n := |stream| - 1;
    var list := Fold(stream[..n]);
    HeadStartsTheList(stream[..n]);
    if Head(stream[..n]).None? {
      StartRefinesIff(stream, c);
    } else {
      HeadDuplicatesStay(stream[..n], c);
      CountIsLookup(list, c);
      if stream[n].Some? { ComposeFiles(stream[n].value, list, c); }
    }
  }

  /** At every moment of the stream c occurs at most once. */
  predicate AlwaysOnce(stream: seq<Option<Message>>, c: Value) {
    Count(Fold(stream), c) <= 1 && (stream == [] || AlwaysOnce(stream[..|stream| - 1], c))
  }

  lemma OnceNow(stream: seq<Option<Message>>, c: Value)
    requires AlwaysOnce(stream, c)
    ensures Count(Fold(stream), c) <= 1
  {
  }

  lemma {:induction false} AlwaysOnceIff(stream: seq<Option<Message>>, c: Value)
    ensures AlwaysOnce(stream, c) <==> CountTools(HeadTools(stream), c) <= 1
  {
    if stream == [] {
    } else {
      var init, last := stream[..|stream| - 1], stream[|stream| - 1];
      AlwaysOnceIff(init, c);
      if Head(init).None? {
        StartRefinesIff(stream, c);
      } else if AlwaysOnce(init, c) && last.Some? {
        OnceNow(init, c);
        HeadStartsTheList(init);
        if Erases(last.value, Fold(init), c) {
          ErasedIsLost(last.value, Fold(init), c);
        } else {
          ComposeFiles(last.value, Fold(init), c);
        }
      }
    }
  }

  /** Each callId occurs at most once at every moment exactly when the first message repeats none. */
  lemma CallIdsUniqueIff(stream: seq<Option<Message>>)
    ensures (forall c :: AlwaysOnce(stream, c)) <==> Distinct(HeadTools(stream))
    ensures Distinct(HeadTools(stream)) ==> forall c :: Count(Fold(stream), c) <= 1
    ensures (forall c :: NothingErased(stream, c)) && !Distinct(HeadTools(stream)) ==>
      exists c :: Count(Fold(stream), c) > 1
  {
    var tools := HeadTools(stream);
    if Distinct(tools) {
      forall c ensures AlwaysOnce(stream, c) && Count(Fold(stream), c) <= 1 {
        DistinctCounts(tools, c);
        AlwaysOnceIff(stream, c);
        OnceNow(stream, c);
      }
    } else {
      var c := Repeated(tools);
      AlwaysOnceIff(stream, c);
      if NothingErased(stream, c) { HeadDuplicatesStay(stream, c); }
    }
  }

  // ---------- Applying a message twice ----------

  /** The first record of each callId has every field of its last record, with the same value. */
  ghost predicate Absorbs(tools: seq<Fields>) {
    forall c :: First(tools, c).Some? && Last(tools, c).Some? ==>
      First(tools, c).value + Last(tools, c).value == First(tools, c).value
  }

  /** A pass overlays exactly the first record of each callId that has an update. */
  lemma {:induction false} MergedAt(tools: seq<Fields>, pending: seq<Fields>, k: nat)
    requires Distinct(pending) && k < |tools|
    ensures var c := CallId(tools[k]);
      MergeTools(tools, pending).0[k] ==
        if First(tools[..k], c).None? && Last(pending, c).Some? then tools[k] + Last(pending, c).value else tools[k]
  {
    var n := |tools| - 1;
    if k < n {
      assert tools[..n][..k] == tools[..k];
      MergedAt(tools[..n], pending, k);
    } else {
      MergeToolsGets(tools[..n], pending, CallId(tools[n]));
    }
  }

  lemma {:induction false} FirstStands(tools: seq<Fields>, c: Value) returns (k: nat)
    requires First(tools, c).Some?
    ensures k < |tools| && tools[k] == First(tools, c).value && CallId(tools[k]) == c && First(tools[..k], c).None?
  {
    var n := |tools| - 1;
    if First(tools[..n], c).None? { return n; }
    k := FirstStands(tools[..n], c);
    assert tools[..n][..k] == tools[..k];
  }

  lemma {:induction false} StandsFirst(tools: seq<Fields>, k: nat)
    requires k < |tools| && First(tools[..k], CallId(tools[k])).None?
    ensures First(tools, CallId(tools[k])) == Some(tools[k])
  {
    var n := |tools| - 1;
    if k < n {
      assert tools[..n][..k] == tools[..k];
      StandsFirst(tools[..n], k);
    }
  }

  /** Merging an array into itself changes nothing exactly when it absorbs its own duplicates. */
  lemma AbsorbsIff(tools: seq<Fields>)
    ensures MergeTools(tools, Squash(tools)).0 == tools <==> Absorbs(tools)
  {
    var p := Squash(tools);
    var r := MergeTools(tools, p).0;
    SquashIsLast(tools, Undefined);
    if r == tools {
      forall c | First(tools, c).Some? && Last(tools, c).Some?
        ensures First(tools, c).value + Last(tools, c).value == First(tools, c).value
      {
        var k := FirstStands(tools, c);
        SquashIsLast(tools, c);
        MergedAt(tools, p, k);
      }
    }
    if Absorbs(tools) {
      forall k | 0 <= k < |tools| ensures r[k] == tools[k] {
        MergedAt(tools, p, k);
        SquashIsLast(tools, CallId(tools[k]));
        if First(tools[..k], CallId(tools[k])).None? { StandsFirst(tools, k); }
      }
    }
  }

  lemma {:induction false} MergeToolsTwice(tools: seq<Fields>, pending: seq<Fields>)
    ensures MergeTools(MergeTools(tools, pending).0, pending) == MergeTools(tools, pending)
  {
    if tools == [] {
    } else {
      var n := |tools| - 1;
      MergeToolsTwice(tools[..n], pending);
      var r := MergeTools(tools, pending).0;
      assert r[..n] == MergeTools(tools[..n], pending).0;
      var left := MergeTools(tools[..n], pending).1;
      LastHasKey(left, CallId(tools[n]));
      assert CallId(r[n]) == CallId(tools[n]);
      var u := Last(left, CallId(tools[n]));
      if u.Some? { assert (tools[n] + u.value) + u.value == tools[n] + u.value; }
    }
  }

  lemma {:induction false} MergeListTwice(list: seq<Message>, pending: seq<Fields>)
    ensures MergeList(MergeList(list, pending).0, pending) == MergeList(list, pending)
  {
    if list == [] {
    } else {
      var n := |list| - 1;
      MergeListTwice(list[..n], pending);
      var r := MergeList(list, pending).0;
      assert r[..n] == MergeList(list[..n], pending).0;
      if IsGroup(list[n]) { MergeToolsTwice(list[n].content.tools, MergeList(list[..n], pending).1); }
    }
  }

  lemma {:induction false} HeadOf(t: Fields, tools: seq<Fields>)
    requires Distinct([t] + tools)
    ensures Last([t] + tools, CallId(t)) == Some(t)
    ensures Without([t] + tools, CallId(t)) == tools
  {
    if tools == [] {
    } else {
      var init, last := tools[..|tools| - 1], tools[|tools| - 1];
      assert [t] + tools == ([t] + init) + [last];
      Snoc([t] + init, last, CallId(t));
      HeadOf(t, init);
      assert ([t] + tools)[..|tools|] == [t] + init;
    }
  }

  lemma MergeUsesHead(init: seq<Fields>, t: Fields, pending: seq<Fields>, more: seq<Fields>)
    requires MergeTools(init, pending) == (init, [t] + more)
    requires Last([t] + more, CallId(t)) == Some(t) && Without([t] + more, CallId(t)) == more
    ensures MergeTools(init + [t], pending) == (init + [t], more)
  {
    assert (init + [t])[..|init|] == init && t + t == t;
  }

  lemma SplitLast(tools: seq<Fields>, more: seq<Fields>)
    requires tools != []
    ensures tools + more == tools[..|tools| - 1] + ([tools[|tools| - 1]] + more)
  {
  }

  /** A pass of updates over their own records uses each of them up and changes nothing. */
  lemma {:induction false} MergeSelf(tools: seq<Fields>, more: seq<Fields>, all: seq<Fields>)
    requires all == tools + more && Distinct(all)
    ensures MergeTools(tools, all) == (tools, more)
  {
    if tools == [] {
      assert all == more;
    } else {
      var init, t := tools[..|tools| - 1], tools[|tools| - 1];
      SplitLast(tools, more);
      MergeSelf(init, [t] + more, all);
      DistinctTail(init, [t] + more);
      HeadOf(t, more);
      MergeUsesHead(init, t, all, more);
      assert init + [t] == tools;
    }
  }

  lemma {:induction false} DistinctTail(a: seq<Fields>, b: seq<Fields>)
    requires Distinct(a + b)
    ensures Distinct(b)
  {
    if b == [] {
    } else {
      var init, last := b[..|b| - 1], b[|b| - 1];
      assert a + b == (a + init) + [last];
      Snoc(a + init, last, CallId(last));
      DistinctTail(a, init);
      TailLast(a, init, CallId(last));
    }
  }

  lemma {:induction false} TailLast(a: seq<Fields>, b: seq<Fields>, c: Value)
    requires Last(a + b, c).None?
    ensures Last(b, c).None?
  {
    if b == [] {
    } else {
      assert (a + b)[..|a + b| - 1] == a + b[..|b| - 1];
      TailLast(a, b[..|b| - 1], c);
    }
  }

  lemma {:induction false} SquashUsesOwnKeys(tools: seq<Fields>)
    ensures MergeTools(tools, Squash(tools)).1 == []
  {
    var p := Squash(tools);
    var left := MergeTools(tools, p).1;
    if left != [] {
      var c := CallId(left[|left| - 1]);
      SquashIsLast(tools, c);
      MergeToolsGets(tools, p, c);
      CountZero(tools, c);
    }
  }

  lemma MergeAppended(list: seq<Message>, pending: seq<Fields>, m: Message)
    requires IsGroup(m)
    requires Distinct(m.content.tools)
    requires MergeList(list, pending).0 == list && m.content.tools == MergeList(list, pending).1
    ensures MergeList(list + [m], pending) == (list + [m], [])
  {
    var left := m.content.tools;
    assert left + [] == left;
    MergeSelf(left, [], left);
    assert (list + [m])[..|list|] == list;
  }

  lemma GroupTwice(m: Message, list: seq<Message>)
    requires IsGroup(m) && list != []
    ensures ComposeGroup(m, ComposeGroup(m, list)) == ComposeGroup(m, list)
  {
    var pending := Squash(m.content.tools);
    var (updated, left) := MergeList(list, pending);
    MergeListTwice(list, pending);
    if left != [] {
      SquashIsLast(m.content.tools, Undefined);
      MergeListLooksUp(list, pending, Undefined);
      MergeAppended(updated, pending, m.(content := Tools(left)));
    }
  }

  lemma KeyedTwice(m: Message, list: seq<Message>)
    requires IsKeyed(m.kind)
    ensures ComposeKeyed(m, ComposeKeyed(m, list)) == ComposeKeyed(m, list)
  {
    var r := ComposeKeyed(m, list);
    var k := FindKeyed(list, m);
    assert k < |r| && r[k].kind == m.kind && Key(r[k]) == Key(m);
    assert forall i :: 0 <= i < k ==> r[i] == list[i];
    assert FindKeyed(r, m) == k;
    var f := m.content.fields;
    if k < |list| {
      var g := list[k].content.fields;
      assert (g + f) + f == g + f;
    } else {
      assert f + f == f;
    }
    assert r[k := r[k].(content := Body(r[k].content.fields + f))] == r;
  }

  /** Delivering one message twice equals delivering it once, in exactly these cases. */
  lemma TwiceIsOnceIff(m: Message, list: seq<Message>)
    ensures Compose(Some(m), Compose(Some(m), list)) == Compose(Some(m), list)
      <==> && (m.kind == Text ==> m.content.text == "")
           && (IsGroup(m) && list == [] ==> Absorbs(m.content.tools))
  {
    var once := Compose(Some(m), list);
    var twice := Compose(Some(m), once);
    if IsGroup(m) {
      if list == [] {
        var tools := m.content.tools;
        SquashUsesOwnKeys(tools);
        var p := Squash(tools);
        assert [m][..0] == [] && MergeList([], p) == ([], p);
        assert twice == [m.(content := Tools(MergeTools(tools, p).0))];
        assert twice[0].content == Tools(MergeTools(tools, Squash(tools)).0);
        AbsorbsIff(tools);
      } else {
        GroupTwice(m, list);
      }
    } else if IsKeyed(m.kind) {
      if list == [] { assert ComposeKeyed(m, []) == [m]; }
      KeyedTwice(m, list);
    } else {
      StreamingTwice(m, list);
    }
  }

  lemma StreamingTwice(m: Message, list: seq<Message>)
    requires !IsGroup(m) && !IsKeyed(m.kind)
    ensures Compose(Some(m), Compose(Some(m), list)) == Compose(Some(m), list)
      <==> (m.kind == Text ==> m.content.text == "")
  {
    var once := Compose(Some(m), list);
    var n := |once| - 1;
    var last := once[n];
    assert last.msgId == m.msgId && last.kind == m.kind;
    var twice := Compose(Some(m), once);
    assert |twice| == |once| && twice == once[n := twice[n]];
    assert twice == once <==> twice[n] == last;
    if m.kind == Text {
      assert |twice[n].content.text| == |last.content.text| + |m.content.text|;
    }
  }

  lemma {:induction false} DistinctAbsorbs(tools: seq<Fields>)
    requires Distinct(tools)
    ensures Absorbs(tools)
  {
    SquashDistinct(tools);
    assert tools + [] == tools;
    MergeSelf(tools, [], tools);
    AbsorbsIff(tools);
  }

  lemma {:induction false} SquashDistinct(tools: seq<Fields>)
    requires Distinct(tools)
    ensures Squash(tools) == tools
  {
    if tools == [] {
    } else {
      var n := |tools| - 1;
      SquashDistinct(tools[..n]);
      assert tools == tools[..n] + [tools[n]];
    }
  }
}
