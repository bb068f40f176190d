/** Streamed messages: what the list shows of a run of them is its latest event, under the id of its first. */
module StreamingTheorems {
  import opened Wrappers
  import opened Json
  import opened MessageAdapter

  /** Neither merged by callId nor by key: the message joins the end of the list. */
  predicate Streamed(m: Message) {
    !IsGroup(m) && !IsKeyed(m.kind)
  }

  predicate Continues(m: Message, last: Message) {
    m.kind == last.kind && m.msgId == last.msgId
  }

  /** Of a value that may not be given, the newer where it is. */
  predicate Newer<T(==)>(shown: Option<T>, given: Option<T>, before: Option<T>) {
    shown == if given.Some? then given else before
  }

  /** What is shown once m has continued the message shown before. */
  predicate ShowsLatest(shown: Message, m: Message, before: Message) {
    && shown.id == before.id
    && shown.kind == m.kind && shown.msgId == m.msgId && shown.conversationId == m.conversationId
    && (if m.kind == Text
        then before.kind == Text && shown.content == Chunk(before.content.text + m.content.text, m.content.rest)
        else shown.content == m.content)
    && Newer(shown.createdAt, m.createdAt, before.createdAt)
    && Newer(shown.position, m.position, before.position)
    && Newer(shown.status, m.status, before.status)
  }

  /** A streamed message replaces what the last message of its kind and msg_id shows, or is appended. */
  lemma StreamedShows(m: Message, list: seq<Message>)
    requires Streamed(m)
    ensures var r, n := Compose(Some(m), list), |list| - 1;
      if list != [] && Continues(m, list[n])
      then |r| == |list| && r[..n] == list[..n] && ShowsLatest(r[n], m, list[n])
      else r == list + [m]
  {
  }

  // ---------- A run of them ----------

  function LatestCreatedAt(run: seq<Message>): Option<int> {
    if run == [] then None
    else
      var last := run[|run| - 1];
      if last.createdAt.Some? then last.createdAt else LatestCreatedAt(run[..|run| - 1])
  }

  function LatestPosition(run: seq<Message>): Option<Position> {
    if run == [] then None
    else
      var last := run[|run| - 1];
      if last.position.Some? then last.position else LatestPosition(run[..|run| - 1])
  }

  function LatestStatus(run: seq<Message>): Option<Status> {
    if run == [] then None
    else
      var last := run[|run| - 1];
      if last.status.Some? then last.status else LatestStatus(run[..|run| - 1])
  }

  function JoinedText(run: seq<Message>): string {
    if run == [] then ""
    else
      var last := run[|run| - 1];
      JoinedText(run[..|run| - 1]) + if last.kind == Text then last.content.text else ""
  }

  function Events(run: seq<Message>): seq<Option<Message>> {
    if run == [] then [] else Events(run[..|run| - 1]) + [Some(run[|run| - 1])]
  }

  /** Streamed messages of one kind and msg_id. */
  predicate OneRun(run: seq<Message>) {
    run != [] && forall i :: 0 <= i < |run| ==> Streamed(run[i]) && Continues(run[i], run[0])
  }

  /** What is shown of a run: the first id, the last content, and of the rest the latest that was given. */
  predicate ShowsRun(shown: Message, run: seq<Message>)
    requires OneRun(run)
  {
    var last := run[|run| - 1];
    && shown.id == run[0].id
    && shown.kind == last.kind && shown.msgId == last.msgId && shown.conversationId == last.conversationId
    && (if last.kind == Text then shown.content == Chunk(JoinedText(run), last.content.rest)
        else shown.content == last.content)
    && shown.createdAt == LatestCreatedAt(run)
    && shown.position == LatestPosition(run)
    && shown.status == LatestStatus(run)
  }

  lemma RunOfOne(m: Message)
    requires Streamed(m)
    ensures ShowsRun(m, [m])
  {
    assert [m][..0] == [];
    assert m.kind == Text ==> JoinedText([m]) == "" + m.content.text;
  }

  lemma RunGoesOn(shown: Message, next: Message, run: seq<Message>, m: Message)
    requires OneRun(run) && OneRun(run + [m]) && ShowsRun(shown, run) && ShowsLatest(next, m, shown)
    ensures ShowsRun(next, run + [m])
  {
    var longer := run + [m];
    assert longer[..|run|] == run && longer[|run|] == m;
  }

  /** Behind other messages, a continued message is replaced alone. */
  lemma ContinuedBehind(before: seq<Message>, so: Message, m: Message) returns (shown: Message)
    requires Streamed(m) && Continues(m, so)
    ensures Compose(Some(m), before + [so]) == before + [shown] && ShowsLatest(shown, m, so)
  {
    var list := before + [so];
    StreamedShows(m, list);
    var r := Compose(Some(m), list);
    shown := r[|before|];
    assert list[..|before|] == before && r == r[..|before|] + [shown];
  }

  lemma EventsSnoc(before: seq<Option<Message>>, init: seq<Message>, m: Message)
    ensures before + Events(init + [m]) == (before + Events(init)) + [Some(m)]
  {
    assert (init + [m])[..|init|] == init;
  }

  lemma ShorterRun(init: seq<Message>, m: Message)
    requires OneRun(init + [m]) && init != []
    ensures OneRun(init) && init[0] == (init + [m])[0] && Streamed(m) && Continues(m, init[0])
  {
    var run := init + [m];
    assert forall i :: 0 <= i < |init| ==> init[i] == run[i];
    assert run[|init|] == m;
  }

  lemma RunStarts(before: seq<Option<Message>>, m: Message)
    requires Streamed(m)
    requires var list := Fold(before); list == [] || !Continues(m, list[|list| - 1])
    ensures Fold(before + Events([m])) == Fold(before) + [m] && ShowsRun(m, [m])
  {
    assert [m][..0] == [] && Events([m]) == [] + [Some(m)];
    FoldSnoc(before, m);
    StreamedShows(m, Fold(before));
    RunOfOne(m);
  }

  lemma RunContinues(before: seq<Option<Message>>, init: seq<Message>, so: Message, m: Message)
    returns (shown: Message)
    requires OneRun(init) && OneRun(init + [m]) && ShowsRun(so, init) && Streamed(m) && Continues(m, init[0])
    requires Fold(before + Events(init)) == Fold(before) + [so]
    ensures Fold(before + Events(init + [m])) == Fold(before) + [shown] && ShowsRun(shown, init + [m])
  {
    assert Continues(init[|init| - 1], init[0]);
    EventsSnoc(before, init, m);
    FoldSnoc(before + Events(init), m);
    shown := ContinuedBehind(Fold(before), so, m);
    RunGoesOn(so, shown, init, m);
  }

  /** Wherever in a stream it starts, a run adds one message to the list, which shows all of it. */
  lemma {:induction false} RunIsShown(before: seq<Option<Message>>, run: seq<Message>) returns (shown: Message)
    requires OneRun(run)
    requires var list := Fold(before); list == [] || !Continues(run[0], list[|list| - 1])
    ensures Fold(before + Events(run)) == Fold(before) + [shown] && ShowsRun(shown, run)
  {
    var init, m := run[..|run| - 1], run[|run| - 1];
    assert run == init + [m];
    if init == [] {
      assert run == [m];
      RunStarts(before, m);
      shown := m;
    } else {
      ShorterRun(init, m);
      var so := RunIsShown(before, init);
      shown := RunContinues(before, init, so, m);
    }
  }

  lemma FoldSnoc(stream: seq<Option<Message>>, m: Message)
    ensures Fold(stream + [Some(m)]) == Compose(Some(m), Fold(stream))
  {
    assert (stream + [Some(m)])[..|stream|] == stream;
  }

  // ---------- Merged messages ----------

  lemma {:induction false} MergeTouchesContents(list: seq<Message>, pending: seq<Fields>)
    ensures var r := MergeList(list, pending).0;
      |r| == |list| && forall i :: 0 <= i < |list| ==>
        r[i] == list[i] || (IsGroup(list[i]) && IsGroup(r[i]) && r[i] == list[i].(content := r[i].content))
  {
    if list == [] {
    } else {
      MergeTouchesContents(list[..|list| - 1], pending);
    }
  }

  /** A merged message changes nothing but contents: of array groups, or of the one message with its key. */
  lemma MergesTouchContents(m: Message, list: seq<Message>)
    requires !Streamed(m)
    ensures var r := Compose(Some(m), list);
      && |list| <= |r| <= |list| + 1
      && (forall i :: 0 <= i < |list| ==> r[i] == list[i] || r[i] == list[i].(content := r[i].content))
      && (forall i :: 0 <= i < |list| && r[i] != list[i] ==> list[i].kind == m.kind)
      && (|r| > |list| ==> r[|list|] == m.(content := r[|list|].content))
      && (IsKeyed(m.kind) && |r| > |list| ==> r[|list|] == m)
      && (IsKeyed(m.kind) ==> forall i, j :: 0 <= i < j < |list| ==> r[i] == list[i] || r[j] == list[j])
  {
    if list != [] && IsGroup(m) { MergeTouchesContents(list, Squash(m.content.tools)); }
  }
}
