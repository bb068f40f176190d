/** Tool calls and plans: folding a stream keeps one message a key, holding the override of all its updates. */
module KeyedTheorems {
  import opened Wrappers
  import opened Json
  import opened KeyedStore
  import opened MessageAdapter

  predicate Has(m: Message, kind: Kind, key: Value)
    requires IsKeyed(kind)
  {
    m.kind == kind && Key(m) == key
  }

  function Lookup(list: seq<Message>, kind: Kind, key: Value): Option<Kept>
    requires IsKeyed(kind)
  {
    if list == [] then None
    else if Has(list[0], kind, key) then Some(Kept(list[0].id, list[0].content.fields))
    else Lookup(list[1..], kind, key)
  }

  function Count(list: seq<Message>, kind: Kind, key: Value): nat
    requires IsKeyed(kind)
  {
    if list == [] then 0 else (if Has(list[0], kind, key) then 1 else 0) + Count(list[1..], kind, key)
  }

  function Store(stream: seq<Option<Message>>, kind: Kind, key: Value): Option<Kept>
    requires IsKeyed(kind)
  {
    if stream == [] then None
    else
      var before, last := Store(stream[..|stream| - 1], kind, key), stream[|stream| - 1];
      if last.None? || !Has(last.value, kind, key) then before
      else Filed(before, last.value.id, Some(last.value.content.fields))
  }

  lemma UpdateKeepsKey(m: Message, held: Message)
    requires IsKeyed(m.kind) && held.kind == m.kind && Key(held) == Key(m)
    ensures Key(Updated(held, m)) == Key(m)
  {
  }

  lemma {:induction false} LookupAppend(a: seq<Message>, m: Message, kind: Kind, key: Value)
    requires IsKeyed(kind)
    ensures Lookup(a + [m], kind, key) ==
      if Lookup(a, kind, key).Some? then Lookup(a, kind, key)
      else if Has(m, kind, key) then Some(Kept(m.id, m.content.fields)) else None
    ensures Count(a + [m], kind, key) == Count(a, kind, key) + if Has(m, kind, key) then 1 else 0
  {
    if a == [] {
      assert a + [m] == [m] + [];
      Cons(m, [], kind, key);
    } else {
      LookupAppend(a[1..], m, kind, key);
      assert a + [m] == [a[0]] + (a[1..] + [m]);
      Cons(a[0], a[1..] + [m], kind, key);
    }
  }

  /** Lists that agree on every keyed message keep the same. */
  lemma {:induction false} SameKeyedSame(a: seq<Message>, b: seq<Message>, kind: Kind, key: Value)
    requires IsKeyed(kind) && |a| == |b|
    requires forall i :: 0 <= i < |a| ==> a[i] == b[i] || (a[i].kind != kind && b[i].kind != kind)
    ensures Lookup(a, kind, key) == Lookup(b, kind, key) && Count(a, kind, key) == Count(b, kind, key)
  {
    if a == [] {
    } else {
      SameKeyedSame(a[1..], b[1..], kind, key);
    }
  }

  lemma {:induction false} GroupsOnlyChange(list: seq<Message>, pending: seq<Fields>)
    ensures forall i :: 0 <= i < |list| ==>
      MergeList(list, pending).0[i] == list[i]
      || (MergeList(list, pending).0[i].kind == ToolGroup && list[i].kind == ToolGroup)
  {
    if list == [] {
    } else {
      GroupsOnlyChange(list[..|list| - 1], pending);
    }
  }

  lemma GroupKeeps(m: Message, list: seq<Message>, kind: Kind, key: Value)
    requires IsKeyed(kind) && IsGroup(m)
    ensures Lookup(ComposeGroup(m, list), kind, key) == Lookup(list, kind, key)
    ensures Count(ComposeGroup(m, list), kind, key) == Count(list, kind, key)
  {
    var (updated, left) := MergeList(list, Squash(m.content.tools));
    GroupsOnlyChange(list, Squash(m.content.tools));
    SameKeyedSame(updated, list, kind, key);
    if left != [] { LookupAppend(updated, m.(content := Tools(left)), kind, key); }
  }

  lemma StreamingKeeps(m: Message, list: seq<Message>, kind: Kind, key: Value)
    requires IsKeyed(kind) && !IsKeyed(m.kind) && list != []
    ensures Lookup(ComposeStreaming(m, list), kind, key) == Lookup(list, kind, key)
    ensures Count(ComposeStreaming(m, list), kind, key) == Count(list, kind, key)
  {
    var last := list[|list| - 1];
    if last.msgId != m.msgId || last.kind != m.kind {
      LookupAppend(list, m, kind, key);
    } else {
      SameKeyedSame(ComposeStreaming(m, list), list, kind, key);
    }
  }

  function Updated(held: Message, m: Message): Message
    requires IsKeyed(m.kind) && held.kind == m.kind
  {
    held.(content := Body(held.content.fields + m.content.fields))
  }

  /** The merge from the front. */
  lemma ComposeCons(m: Message, x: Message, rest: seq<Message>)
    requires IsKeyed(m.kind)
    ensures ComposeKeyed(m, [x] + rest) ==
      if Has(x, m.kind, Key(m)) then [Updated(x, m)] + rest else [x] + ComposeKeyed(m, rest)
  {
  }

  lemma Cons(x: Message, rest: seq<Message>, kind: Kind, key: Value)
    requires IsKeyed(kind)
    ensures Lookup([x] + rest, kind, key) ==
      if Has(x, kind, key) then Some(Kept(x.id, x.content.fields)) else Lookup(rest, kind, key)
    ensures Count([x] + rest, kind, key) == (if Has(x, kind, key) then 1 else 0) + Count(rest, kind, key)
  {
  }

  /** Going from list to r files m: a known key is overridden, a new one gets its one message. */
  ghost predicate Files(r: seq<Message>, list: seq<Message>, m: Message, kind: Kind, key: Value)
    requires IsKeyed(kind)
  {
    && Lookup(r, kind, key) == (
      if Has(m, kind, key) then Filed(Lookup(list, kind, key), m.id, Some(m.content.fields))
      else Lookup(list, kind, key))
    && Count(r, kind, key) == Count(list, kind, key) + (
      if Has(m, kind, key) && Lookup(list, kind, key).None? then 1 else 0)
  }

  lemma HeadFiles(m: Message, x: Message, rest: seq<Message>, kind: Kind, key: Value)
    requires IsKeyed(kind) && IsKeyed(m.kind) && Has(x, m.kind, Key(m))
    ensures Files([Updated(x, m)] + rest, [x] + rest, m, kind, key)
  {
    UpdateKeepsKey(m, x);
    Cons(Updated(x, m), rest, kind, key);
    Cons(x, rest, kind, key);
  }

  lemma TailFiles(m: Message, x: Message, rest: seq<Message>, r: seq<Message>, kind: Kind, key: Value)
    requires IsKeyed(kind) && IsKeyed(m.kind) && !Has(x, m.kind, Key(m)) && Files(r, rest, m, kind, key)
    ensures Files([x] + r, [x] + rest, m, kind, key)
  {
  }

  lemma {:induction false} KeyedFiles(m: Message, list: seq<Message>, kind: Kind, key: Value)
    requires IsKeyed(kind) && IsKeyed(m.kind)
    ensures Files(ComposeKeyed(m, list), list, m, kind, key)
  {
    if list == [] {
      assert ComposeKeyed(m, list) == [m] + [];
      Cons(m, [], kind, key);
    } else {
      var x, rest := list[0], list[1..];
      assert list == [x] + rest;
      ComposeCons(m, x, rest);
      if Has(x, m.kind, Key(m)) {
        HeadFiles(m, x, rest, kind, key);
      } else {
        KeyedFiles(m, rest, kind, key);
        TailFiles(m, x, rest, ComposeKeyed(m, rest), kind, key);
      }
    }
  }

  lemma ComposeFiles(m: Message, list: seq<Message>, kind: Kind, key: Value)
    requires IsKeyed(kind)
    ensures Files(Compose(Some(m), list), list, m, kind, key)
  {
    if list == [] {
      LookupAppend([], m, kind, key);
      assert [] + [m] == [m];
    } else if IsGroup(m) {
      GroupKeeps(m, list, kind, key);
    } else if IsKeyed(m.kind) {
      KeyedFiles(m, list, kind, key);
    } else {
      StreamingKeeps(m, list, kind, key);
    }
  }

  /** Over any stream each key has at most one message: the first that carried it, all updates overlaid in order. */
  lemma {:induction false} FoldRefinesKeyed(stream: seq<Option<Message>>, kind: Kind, key: Value)
    requires IsKeyed(kind)
    ensures Lookup(Fold(stream), kind, key) == Store(stream, kind, key)
    ensures Count(Fold(stream), kind, key) == if Store(stream, kind, key).Some? then 1 else 0
  {
    if stream == [] {
    } else {
      var n := |stream| - 1;
      FoldRefinesKeyed(stream[..n], kind, key);
      if stream[n].Some? { ComposeFiles(stream[n].value, Fold(stream[..n]), kind, key); }
    }
  }

  // ---------- The keys themselves ----------

  /** An agent's tool call wraps its fields in an update. */
  function Unwrapped(fields: Fields): Fields {
    match Field(fields, "update")
    case Obj(update) => update
    case _ => map[]
  }

  predicate Same(a: Fields, b: Fields, name: string) {
    Field(a, name) == Field(b, name)
  }

  /** A later message of the same call, or of the same session's plan. */
  predicate Updates(m: Message, held: Message) {
    m.kind == held.kind &&
    match m.kind
    case ToolCall => Same(m.content.fields, held.content.fields, "callId")
    case CodexToolCall => Same(m.content.fields, held.content.fields, "toolCallId")
    case AcpToolCall => Same(Unwrapped(m.content.fields), Unwrapped(held.content.fields), "toolCallId")
    case Plan => Same(m.content.fields, held.content.fields, "sessionId")
    case _ => false
  }

  lemma UpdatesIff(m: Message, held: Message)
    ensures Updates(m, held) <==> IsKeyed(m.kind) && held.kind == m.kind && Key(held) == Key(m)
  {
  }

  /** A call or a plan overlays the first message that it updates, and is appended without one. */
  lemma KeyedUpdates(m: Message, list: seq<Message>) returns (k: nat)
    requires m.kind in {ToolCall, CodexToolCall, AcpToolCall, Plan}
    ensures k <= |list| && forall i :: 0 <= i < k ==> !Updates(m, list[i])
    ensures if k < |list|
      then Updates(m, list[k]) &&
        Compose(Some(m), list) == list[k := list[k].(content := Body(list[k].content.fields + m.content.fields))]
      else Compose(Some(m), list) == list + [m]
  {
    k := FindKeyed(list, m);
    forall i | 0 <= i < |list| { UpdatesIff(m, list[i]); }
  }
}
