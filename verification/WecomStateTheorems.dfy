/** What the records promise over whole runs, cleanups interleaved anywhere. */
module WecomStateTheorems {
  import opened Wrappers
  import opened Text
  import opened WecomState

  /** A positive clock that never goes back. */
  predicate Timely(run: seq<Event>) {
    && (forall i :: 0 <= i < |run| ==> run[i].at > 0)
    && (forall i, j :: 0 <= i < j < |run| ==> run[i].at <= run[j].at)
  }

  predicate ByTime(run: seq<Event>, now: int) {
    Timely(run) && now > 0 && forall i :: 0 <= i < |run| ==> run[i].at <= now
  }

  lemma Shorter(run: seq<Event>, now: int)
    requires ByTime(run, now) && run != []
    ensures var init, last := run[..|run| - 1], run[|run| - 1];
      run == init + [last] && ByTime(init, last.at) && 0 < last.at <= now
  {
    var n := |run| - 1;
    var init := run[..n];
    assert run == init + [run[n]];
    assert forall i :: 0 <= i < n ==> init[i] == run[i];
    assert forall i :: 0 <= i < n ==> run[i].at <= run[n].at;
  }

  // ---------- Duplicate events ----------

  predicate Accepted(run: seq<Event>, i: nat)
    requires i < |run|
  {
    run[i].Delivery? && run[i].id != "" && !Drops(After(run[..i]), run[i].id, run[i].at)
  }

  /** When this id was last accepted; 0 when it never was. */
  function LastAccepted(run: seq<Event>, id: string): int {
    if run == [] then 0
    else
      var init, last := run[..|run| - 1], run[|run| - 1];
      if last.Delivery? && last.id == id && id != "" && !Drops(After(init), id, last.at) then last.at
      else LastAccepted(init, id)
  }

  /** The record is the last acceptance, or has been cleaned up when that was long ago. */
  lemma {:induction false} DeduperTells(run: seq<Event>, id: string, now: int)
    requires ByTime(run, now) && id != ""
    ensures var t := LastAccepted(run, id); var d := After(run).eventDeduper;
      if id in d then t == d[id] && t > 0 else t == 0 || now - t > EVENT_TTL_MS
  {
    if run == [] {
    } else {
      Shorter(run, now);
      DeduperTells(run[..|run| - 1], id, run[|run| - 1].at);
    }
  }

  lemma AcceptedBefore(run: seq<Event>, i: nat)
    requires i < |run| - 1
    ensures Accepted(run, i) == Accepted(run[..|run| - 1], i)
  {
    assert run[..|run| - 1][..i] == run[..i];
  }

  lemma {:induction false} LastAcceptedIsOne(run: seq<Event>, id: string) returns (i: nat)
    requires LastAccepted(run, id) != 0
    ensures i < |run| && Accepted(run, i) && run[i].id == id && run[i].at == LastAccepted(run, id)
  {
    var n := |run| - 1;
    if Accepted(run, n) && run[n].id == id { return n; }
    i := LastAcceptedIsOne(run[..n], id);
    AcceptedBefore(run, i);
  }

  lemma {:induction false} AcceptedByThen(run: seq<Event>, i: nat, now: int)
    requires ByTime(run, now) && i < |run| && Accepted(run, i)
    ensures run[i].at <= LastAccepted(run, run[i].id)
  {
    var n := |run| - 1;
    Shorter(run, now);
    if i < n {
      AcceptedBefore(run, i);
      AcceptedByThen(run[..n], i, run[n].at);
    }
  }

  /** A delivery is dropped exactly when the same event was accepted less than five minutes before. */
  lemma DroppedIff(run: seq<Event>, id: string, now: int)
    requires ByTime(run, now) && id != ""
    ensures Drops(After(run), id, now)
      <==> exists i :: 0 <= i < |run| && Accepted(run, i) && run[i].id == id && now - run[i].at < 300_000
  {
    DeduperTells(run, id, now);
    if Drops(After(run), id, now) {
      var i := LastAcceptedIsOne(run, id);
    }
    forall i | 0 <= i < |run| && Accepted(run, i) && run[i].id == id ensures run[i].at <= LastAccepted(run, id) {
      AcceptedByThen(run, i, now);
    }
  }

  lemma AcceptedApart(run: seq<Event>, i: nat, j: nat)
    requires Timely(run) && i < j < |run| && Accepted(run, i) && Accepted(run, j) && run[i].id == run[j].id
    ensures run[j].at - run[i].at >= 300_000
  {
    DroppedIff(run[..j], run[j].id, run[j].at);
    assert run[..j][..i] == run[..i];
    assert Accepted(run[..j], i);
  }

  // ---------- Reply URLs ----------

  predicate Registers(e: Event, c: string) {
    e.Registration? && Trim(e.chat) == c && Trim(e.url) != ""
  }

  predicate Consumes(e: Event, c: string) {
    e.Consumption? && Trim(e.chat) == c
  }

  /** The registration for c at i, not touched since. */
  predicate Waiting(run: seq<Event>, c: string, i: nat)
    requires i < |run|
  {
    Registers(run[i], c) && forall k :: i < k < |run| ==> !Registers(run[k], c) && !Consumes(run[k], c)
  }

  function LastWaiting(run: seq<Event>, c: string): Option<Event> {
    if run == [] then None
    else
      var init, last := run[..|run| - 1], run[|run| - 1];
      if Registers(last, c) then Some(last) else if Consumes(last, c) then None else LastWaiting(init, c)
  }

  lemma StillWaits(run: seq<Event>, c: string, i: nat)
    requires i < |run| - 1
    ensures var n := |run| - 1;
      Waiting(run, c, i) <==> Waiting(run[..n], c, i) && !Registers(run[n], c) && !Consumes(run[n], c)
  {
    var init := run[..|run| - 1];
    assert forall k :: 0 <= k < |init| ==> init[k] == run[k];
  }

  lemma {:induction false} LastWaitingWaits(run: seq<Event>, c: string) returns (i: nat)
    requires LastWaiting(run, c).Some?
    ensures i < |run| && Waiting(run, c, i) && run[i] == LastWaiting(run, c).value
  {
    var n := |run| - 1;
    if Registers(run[n], c) {
      i := n;
    } else {
      i := LastWaitingWaits(run[..n], c);
      StillWaits(run, c, i);
    }
  }

  lemma {:induction false} WaitingIsLast(run: seq<Event>, c: string, i: nat)
    requires i < |run| && Waiting(run, c, i)
    ensures LastWaiting(run, c) == Some(run[i])
  {
    var n := |run| - 1;
    if i < n {
      StillWaits(run, c, i);
      WaitingIsLast(run[..n], c, i);
    }
  }

  lemma LastWaitingIs(run: seq<Event>, c: string)
    ensures var w := LastWaiting(run, c);
      && (w.Some? ==> exists i :: 0 <= i < |run| && Waiting(run, c, i) && run[i] == w.value)
      && (forall i :: 0 <= i < |run| && Waiting(run, c, i) ==> w == Some(run[i]))
  {
    if LastWaiting(run, c).Some? {
      var i := LastWaitingWaits(run, c);
    }
    forall i | 0 <= i < |run| && Waiting(run, c, i) ensures LastWaiting(run, c) == Some(run[i]) {
      WaitingIsLast(run, c, i);
    }
  }

  /** A usable record is the waiting registration; without one, what waits has expired. */
  predicate UrlTold(s: State, c: string, w: Option<Event>, now: int) {
    if c in s.responseUrlStore && !s.responseUrlStore[c].used then
      w.Some? && w.value.Registration?
      && s.responseUrlStore[c].url == Trim(w.value.url)
      && s.responseUrlStore[c].expiresAt == w.value.at + RESPONSE_URL_TTL_MS
    else w.Some? ==> w.value.at + RESPONSE_URL_TTL_MS <= now
  }

  function Next(w: Option<Event>, c: string, e: Event): Option<Event> {
    if Registers(e, c) then Some(e) else if Consumes(e, c) then None else w
  }

  lemma TellsStep(s: State, c: string, w: Option<Event>, e: Event, now: int)
    requires UrlTold(s, c, w, e.at) && e.at <= now && c != ""
    ensures UrlTold(Step(s, e), c, Next(w, c, e), now)
  {
  }

  lemma {:induction false} StoreTells(run: seq<Event>, c: string, now: int)
    requires ByTime(run, now) && c != ""
    ensures UrlTold(After(run), c, LastWaiting(run, c), now)
  {
    if run == [] {
    } else {
      var init, last := run[..|run| - 1], run[|run| - 1];
      Shorter(run, now);
      StoreTells(init, c, last.at);
      TellsStep(After(init), c, LastWaiting(init, c), last, now);
    }
  }

  /** A reply URL is given out exactly while the chat's last registration is untouched and less than 55 minutes old. */
  lemma YieldsIff(run: seq<Event>, chat: string, now: int, url: string)
    requires ByTime(run, now)
    ensures Yields(After(run), chat, now) == Some(url)
      <==> Trim(chat) != "" && exists i ::
        0 <= i < |run| && Waiting(run, Trim(chat), i)
        && url == Trim(run[i].url) && now < run[i].at + 3_300_000
  {
    var c := Trim(chat);
    if c != "" {
      StoreTells(run, c, now);
      LastWaitingIs(run, c);
    }
  }

  /** Of two consumptions with no registration between them, the second gets nothing. */
  lemma YieldsOnce(run: seq<Event>, i: nat, chat: string, now: int)
    requires ByTime(run, now) && i < |run| && Consumes(run[i], Trim(chat))
    requires forall k :: i < k < |run| ==> !Registers(run[k], Trim(chat))
    ensures Yields(After(run), chat, now) == None
  {
    assert forall k :: 0 <= k < |run| ==> !Waiting(run, Trim(chat), k);
    var r := Yields(After(run), chat, now);
    if r.Some? { YieldsIff(run, chat, now, r.value); }
  }

  /** A consumption leaves the record it gave out used, and takes away one that it could not give out. */
  lemma SpentRecordGoes(s: State, chat: string, now: int, c: string)
    requires c in s.responseUrlStore
    ensures var t := Step(s, Consumption(chat, now));
      && t.eventDeduper == s.eventDeduper && t.responseUrlStore.Keys <= s.responseUrlStore.Keys
      && (Trim(chat) != c || c == "" ==> c in t.responseUrlStore && t.responseUrlStore[c] == s.responseUrlStore[c])
      && (Trim(chat) == c != "" ==>
            if Yields(s, chat, now).Some?
            then c in t.responseUrlStore && t.responseUrlStore[c] == s.responseUrlStore[c].(used := true)
            else c !in t.responseUrlStore)
  {
  }

  /** A chat or a URL of white space registers nothing; any other registration concerns its own chat alone. */
  lemma RegistrationIs(s: State, chat: string, url: string, now: int)
    ensures var t := Step(s, Registration(chat, url, now));
      if AllSpaces(chat) || AllSpaces(url) then t == s
      else
        && t.eventDeduper == s.eventDeduper && t.responseUrlStore.Keys == s.responseUrlStore.Keys + {Trim(chat)}
        && t.responseUrlStore[Trim(chat)] == UrlRecord(Trim(url), now + 3_300_000, false)
        && forall c :: c in s.responseUrlStore && c != Trim(chat) ==> t.responseUrlStore[c] == s.responseUrlStore[c]
  {
    BlankIff(chat);
    BlankIff(url);
  }

  lemma BlankIff(text: string)
    ensures Trim(text) == "" <==> AllSpaces(text)
  {
    var a, c := TrimSplits(text);
    if AllSpaces(text) { TrimSpaces(text); }
  }

  /** A cleanup keeps exactly the stamps of the last five minutes and the records that can still be given out. */
  lemma CleanupKeeps(s: State, now: int, id: string, c: string)
    ensures var t := Step(s, Cleanup(now));
      && (id in t.eventDeduper <==> id in s.eventDeduper && now - s.eventDeduper[id] <= 300_000)
      && (id in t.eventDeduper ==> t.eventDeduper[id] == s.eventDeduper[id])
      && (c in t.responseUrlStore <==>
            c in s.responseUrlStore && !s.responseUrlStore[c].used && now < s.responseUrlStore[c].expiresAt)
      && (c in t.responseUrlStore ==> t.responseUrlStore[c] == s.responseUrlStore[c])
  {
  }

  // ---------- Cleaning up is invisible ----------

  function WithoutCleanups(run: seq<Event>): seq<Event> {
    if run == [] then []
    else
      var init, last := run[..|run| - 1], run[|run| - 1];
      if last.Cleanup? then WithoutCleanups(init) else WithoutCleanups(init) + [last]
  }

  /** From now on the two answer alike. */
  ghost predicate Alike(s: State, t: State, now: int) {
    && (forall id, at :: now <= at ==> Drops(s, id, at) == Drops(t, id, at))
    && (forall chat, at :: now <= at ==> Yields(s, chat, at) == Yields(t, chat, at))
  }

  lemma AlikeDrops(s: State, t: State, e: Event, id: string, at: int)
    requires Alike(s, t, e.at) && e.at <= at
    ensures Drops(Step(s, e), id, at) == Drops(if e.Cleanup? then t else Step(t, e), id, at)
  {
    assert Drops(s, id, at) == Drops(t, id, at);
    if e.Delivery? { assert Drops(s, e.id, e.at) == Drops(t, e.id, e.at); }
  }

  lemma AlikeYields(s: State, t: State, e: Event, chat: string, at: int)
    requires Alike(s, t, e.at) && e.at <= at
    ensures Yields(Step(s, e), chat, at) == Yields(if e.Cleanup? then t else Step(t, e), chat, at)
  {
    assert Yields(s, chat, at) == Yields(t, chat, at);
    if e.Consumption? { assert Yields(s, e.chat, e.at) == Yields(t, e.chat, e.at); }
  }

  lemma AlikeStep(s: State, t: State, e: Event)
    requires Alike(s, t, e.at)
    ensures Alike(Step(s, e), if e.Cleanup? then t else Step(t, e), e.at)
  {
    forall id, at | e.at <= at { AlikeDrops(s, t, e, id, at); }
    forall chat, at | e.at <= at { AlikeYields(s, t, e, chat, at); }
  }

  /** Wherever the cleanups fall, every later delivery and consumption is answered as if there were none. */
  lemma {:induction false} CleanupsAreInvisible(run: seq<Event>, now: int)
    requires ByTime(run, now)
    ensures Alike(After(run), After(WithoutCleanups(run)), now)
  {
    if run == [] {
    } else {
      var n := |run| - 1;
      Shorter(run, now);
      CleanupsAreInvisible(run[..n], run[n].at);
      AlikeStep(After(run[..n]), After(WithoutCleanups(run[..n])), run[n]);
      if !run[n].Cleanup? {
        assert WithoutCleanups(run)[..|WithoutCleanups(run)| - 1] == WithoutCleanups(run[..n]);
      }
    }
  }
}
