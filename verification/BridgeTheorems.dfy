/** Each request settles at most once, by its own reply or its own timeout, and leaves no listener behind. */
module BridgeTheorems {
  import opened BridgeModel

  // ---------- Callback names are distinct ----------

  function DigitValue(c: char): int {
    if '0' <= c <= '9' then c as int - '0' as int else c as int - 'a' as int + 10
  }

  function Value36(s: string): int {
    if s == "" then 0 else Value36(s[..|s| - 1]) * 36 + DigitValue(s[|s| - 1])
  }

  lemma {:induction false} Base36Reads(n: nat)
    ensures Value36(Base36(n)) == n && '_' !in Base36(n) && Base36(n) != ""
  {
    var s := Base36(n);
    if n < 36 {
      assert s[..0] == "";
    } else {
      Base36Reads(n / 36);
      assert s[..|s| - 1] == Base36(n / 36);
    }
  }

  lemma TailHolds(a: string, x: string)
    ensures forall k :: |a| < k <= |a| + |x| ==> (a + ("_" + x))[k] in x
  {
  }

  /** What follows the last underscore is the counter. */
  lemma AfterLastUnderscore(a: string, b: string, x: string, y: string)
    requires '_' !in x && '_' !in y && a + ("_" + x) == b + ("_" + y)
    ensures x == y
  {
    var s := a + ("_" + x);
    TailHolds(a, x);
    TailHolds(b, y);
    assert s[|a|] == '_' && s[|b|] == '_';
    assert s[|a| + 1..] == x && s[|b| + 1..] == y;
  }

  lemma NamesDiffer(name1: string, clock1: string, c1: nat, name2: string, clock2: string, c2: nat)
    requires CallbackName(name1, RequestId(clock1, c1)) == CallbackName(name2, RequestId(clock2, c2))
    ensures c1 == c2
  {
    Base36Reads(c1);
    Base36Reads(c2);
    NameSplits(name1, clock1, c1);
    NameSplits(name2, clock2, c2);
    AfterLastUnderscore(
      "subscribe.callback-" + name1 + ("m_" + clock1), "subscribe.callback-" + name2 + ("m_" + clock2),
      Base36(c1), Base36(c2));
  }

  lemma NameSplits(name: string, clock: string, c: nat)
    ensures CallbackName(name, RequestId(clock, c))
      == ("subscribe.callback-" + name + ("m_" + clock)) + ("_" + Base36(c))
  {
  }

  ghost predicate SentWith(m: Outgoing, issued: nat, callbackName: string, name: string, clock: string) {
    && m.subject == Subject(name) && m.id == RequestId(clock, issued)
    && callbackName == CallbackName(name, m.id)
  }

  /** The message carries the id, with the counter value issued, that the request awaits its reply by. */
  ghost predicate SentAs(m: Outgoing, issued: nat, callbackName: string) {
    exists name, clock :: SentWith(m, issued, callbackName, name, clock)
  }

  lemma IssuesDiffer(m: Outgoing, a: Request, n: Outgoing, b: Request)
    requires SentAs(m, a.issued, a.callbackName) && SentAs(n, b.issued, b.callbackName)
    requires a.callbackName == b.callbackName
    ensures a.issued == b.issued
  {
    var name1, clock1 :| SentWith(m, a.issued, a.callbackName, name1, clock1);
    var name2, clock2 :| SentWith(n, b.issued, b.callbackName, name2, clock2);
    NamesDiffer(name1, clock1, a.issued, name2, clock2, b.issued);
  }

  // ---------- The invariant ----------

  ghost predicate NoEmptySet(listeners: map<string, set<Callback>>) {
    forall name :: name in listeners ==> listeners[name] != {}
  }

  predicate Listens(s: State, name: string, i: nat) {
    Reply(i) in ListenersOf(s.listeners, name)
  }

  /** Waiting is listening under its own name and having a timer; settled is neither, for good. */
  ghost predicate RequestOk(s: State, i: nat)
    requires i < |s.requests|
  {
    && |s.requests[i].settlings| <= 1
    && (i in s.timers <==> s.requests[i].settlings == [])
    && (forall name :: Listens(s, name, i) <==> name == s.requests[i].callbackName && s.requests[i].settlings == [])
  }

  ghost predicate IssuedOk(r: Request, outbox: seq<Outgoing>) {
    && 1 <= r.issued <= |outbox|
    && outbox[r.issued - 1].data == r.data
    && SentAs(outbox[r.issued - 1], r.issued, r.callbackName)
  }

  ghost predicate NamesOk(s: State) {
    && |s.outbox| == s.counter
    && (forall i :: 0 <= i < |s.requests| ==> IssuedOk(s.requests[i], s.outbox))
    && (forall i, j :: 0 <= i < j < |s.requests| ==> s.requests[i].issued < s.requests[j].issued)
  }

  ghost predicate Inv(s: State) {
    && NoEmptySet(s.listeners)
    && NamesOk(s)
    && (forall i :: 0 <= i < |s.requests| ==> RequestOk(s, i))
    && (forall i :: i in s.timers ==> i < |s.requests|)
    && (forall i: nat, name :: Listens(s, name, i) ==> i < |s.requests|)
  }

  lemma SubscribeMeans(listeners: map<string, set<Callback>>, name: string, cb: Callback, n: string)
    ensures NoEmptySet(listeners) ==> NoEmptySet(Subscribe(listeners, name, cb))
    ensures ListenersOf(Subscribe(listeners, name, cb), n)
      == ListenersOf(listeners, n) + (if n == name then {cb} else {})
  {
  }

  lemma UnsubscribeMeans(listeners: map<string, set<Callback>>, name: string, cb: Callback, n: string)
    ensures NoEmptySet(listeners) ==> NoEmptySet(Unsubscribe(listeners, name, cb))
    ensures ListenersOf(Unsubscribe(listeners, name, cb), n)
      == ListenersOf(listeners, n) - (if n == name then {cb} else {})
  {
  }

  /** Handlers come and go without touching a request. */
  lemma SameReplies(s: State, t: State)
    requires Inv(s) && t.requests == s.requests && t.timers == s.timers
    requires t.counter == |t.outbox| && s.outbox <= t.outbox
    requires NoEmptySet(t.listeners)
    requires forall name, i: nat :: Listens(t, name, i) <==> Listens(s, name, i)
    ensures Inv(t)
  {
    forall i | 0 <= i < |t.requests| ensures RequestOk(t, i) { assert RequestOk(s, i); }
  }

  // ---------- Settling ----------

  function Settled(s: State, i: nat, how: Settling): State
    requires i < |s.requests|
  {
    s.(timers := s.timers - {i},
       listeners := Unsubscribe(s.listeners, s.requests[i].callbackName, Reply(i)),
       requests := Settle(s.requests, i, how))
  }

  lemma SettleKeeps(s: State, i: nat, how: Settling)
    requires Inv(s) && i < |s.requests| && s.requests[i].settlings == []
    ensures Inv(Settled(s, i, how))
  {
    var t := Settled(s, i, how);
    assert RequestOk(s, i);
    forall name, j: nat ensures Listens(t, name, j) <==> Listens(s, name, j) && j != i {
      var own := s.requests[i].callbackName;
      UnsubscribeMeans(s.listeners, own, Reply(i), name);
      assert Listens(s, name, i) ==> name == own;
      assert Listens(t, name, j) <==> Reply(j) in ListenersOf(Unsubscribe(s.listeners, own, Reply(i)), name);
    }
    UnsubscribeMeans(s.listeners, s.requests[i].callbackName, Reply(i), "");
    forall j | 0 <= j < |t.requests| ensures RequestOk(t, j) && IssuedOk(t.requests[j], t.outbox) {
      assert RequestOk(s, j) && IssuedOk(s.requests[j], s.outbox);
    }
  }

  /** A broadcast settles the requests that listen, each once, and leaves the others alone. */
  lemma {:induction false} BroadcastSettles(s: State, order: seq<Callback>, data: string)
    requires Inv(s)
    requires forall i, j :: 0 <= i < j < |order| ==> order[i] != order[j]
    requires forall i: nat :: Reply(i) in order ==> i < |s.requests| && s.requests[i].settlings == []
    ensures var t := Broadcast(s, order, data);
      && Inv(t) && |t.requests| == |s.requests|
      && forall i :: 0 <= i < |s.requests| ==>
        t.requests[i] == if Reply(i) in order then s.requests[i].(settlings := [Resolved(data)]) else s.requests[i]
  {
    if order == [] {
    } else {
      var init, last := order[..|order| - 1], order[|order| - 1];
      assert order == init + [last];
      BroadcastSettles(s, init, data);
      if last.Reply? {
        var before := Broadcast(s, init, data);
        assert Broadcast(s, order, data) == Settled(before, last.request, Resolved(data));
        SettleKeeps(before, last.request, Resolved(data));
      }
    }
  }

  // ---------- Each event ----------

  lemma RequestKeeps(s: State, name: string, data: string, clock: string)
    requires Inv(s)
    ensures Inv(SendRequest(s, name, data, clock))
  {
    var t := SendRequest(s, name, data, clock);
    var n := |s.requests|;
    var own := t.requests[n].callbackName;
    forall other, i: nat ensures Listens(t, other, i) <==> Listens(s, other, i) || (other == own && i == n) {
      SubscribeMeans(s.listeners, own, Reply(n), other);
    }
    SubscribeMeans(s.listeners, own, Reply(n), "");
    forall i | 0 <= i < |t.requests| ensures RequestOk(t, i) {
      if i < n { assert RequestOk(s, i); }
    }
    assert SentWith(t.outbox[s.counter], s.counter + 1, own, name, clock);
  }

  lemma MessageIsFor(s: State, name: string, order: seq<Callback>, i: nat)
    requires Inv(s) && Enumerates(order, ListenersOf(s.listeners, name))
    ensures Reply(i) in order ==> i < |s.requests|
    ensures i < |s.requests| ==>
      (Reply(i) in order <==> s.requests[i].callbackName == name && s.requests[i].settlings == [])
  {
    assert Reply(i) in order <==> Reply(i) in (set cb | cb in order);
    assert Reply(i) in order <==> Listens(s, name, i);
    if i < |s.requests| { assert RequestOk(s, i); }
  }

  lemma StepKeeps(s: State, e: Event)
    requires Inv(s) && Enabled(s, e)
    ensures Inv(Step(s, e))
  {
    var t := Step(s, e);
    match e
    case RequestCalled(name, data, clock) => RequestKeeps(s, name, data, clock);
    case EmitCalled(_, _, _) => SameReplies(s, t);
    case Subscribed(name, id) =>
      forall n, i: nat ensures Listens(t, n, i) <==> Listens(s, n, i) {
        SubscribeMeans(s.listeners, name, Handler(id), n);
      }
      SubscribeMeans(s.listeners, name, Handler(id), name);
      SameReplies(s, t);
    case Unsubscribed(name, id) =>
      forall n, i: nat ensures Listens(t, n, i) <==> Listens(s, n, i) {
        UnsubscribeMeans(s.listeners, name, Handler(id), n);
      }
      UnsubscribeMeans(s.listeners, name, Handler(id), name);
      SameReplies(s, t);
    case MessageReceived(name, data, order) =>
      forall i: nat | Reply(i) in order ensures i < |s.requests| && s.requests[i].settlings == [] {
        MessageIsFor(s, name, order, i);
      }
      BroadcastSettles(s, order, data);
    case TimedOut(i) =>
      assert RequestOk(s, i);
      assert t == Settled(s, i, Rejected);
      SettleKeeps(s, i, Rejected);
  }

  // ---------- Over whole runs ----------

  lemma {:induction false} RunKeeps(run: seq<Event>)
    requires IsRun(run)
    ensures Inv(After(run))
  {
    if run == [] {
    } else {
      RunKeeps(run[..|run| - 1]);
      StepKeeps(After(run[..|run| - 1]), run[|run| - 1]);
    }
  }

  /** A waiting request has its one listener and its timer; a settled one was settled once and has neither. */
  lemma SettledOnce(run: seq<Event>, i: nat)
    requires IsRun(run) && i < |After(run).requests|
    ensures var s := After(run); var r := s.requests[i];
      && |r.settlings| <= 1
      && (i in s.timers <==> r.settlings == [])
      && (forall name :: Reply(i) in ListenersOf(s.listeners, name) <==> name == r.callbackName && r.settlings == [])
  {
    RunKeeps(run);
    assert RequestOk(After(run), i);
    forall name ensures Reply(i) in ListenersOf(After(run).listeners, name) <==> Listens(After(run), name, i) {}
  }

  /** No two requests of a run share a callback name, however alike their names and times. */
  lemma CallbackNamesDistinct(run: seq<Event>, i: nat, j: nat)
    requires IsRun(run) && i < j < |After(run).requests|
    ensures After(run).requests[i].callbackName != After(run).requests[j].callbackName
  {
    RunKeeps(run);
    var s := After(run);
    var a, b := s.requests[i], s.requests[j];
    if a.callbackName == b.callbackName { IssuesDiffer(s.outbox[a.issued - 1], a, s.outbox[b.issued - 1], b); }
  }

  /** A message settles exactly the waiting request whose callback name it carries, with its data. */
  lemma ReplySettlesItsOwn(run: seq<Event>, name: string, data: string, order: seq<Callback>, i: nat)
    requires IsRun(run) && Enabled(After(run), MessageReceived(name, data, order)) && i < |After(run).requests|
    ensures var s := After(run); var t := Step(s, MessageReceived(name, data, order));
      && |t.requests| == |s.requests|
      && t.requests[i] ==
        if s.requests[i].callbackName == name && s.requests[i].settlings == []
        then s.requests[i].(settlings := [Resolved(data)]) else s.requests[i]
  {
    RunKeeps(run);
    var s := After(run);
    forall k: nat | Reply(k) in order ensures k < |s.requests| && s.requests[k].settlings == [] {
      MessageIsFor(s, name, order, k);
    }
    MessageIsFor(s, name, order, i);
    BroadcastSettles(s, order, data);
  }

  /** Every request was sent with its data, under its name and with the id that its callback name ends in. */
  lemma RequestIsSent(run: seq<Event>, i: nat)
    requires IsRun(run) && i < |After(run).requests|
    ensures var s := After(run); var r := s.requests[i];
      && 1 <= r.issued <= |s.outbox| && s.outbox[r.issued - 1].data == r.data
      && (exists name :: s.outbox[r.issued - 1].subject == Subject(name)
            && r.callbackName == CallbackName(name, s.outbox[r.issued - 1].id))
  {
    RunKeeps(run);
    var s := After(run);
    assert IssuedOk(s.requests[i], s.outbox);
    var r := s.requests[i];
    var name, clock :| SentWith(s.outbox[r.issued - 1], r.issued, r.callbackName, name, clock);
  }

  lemma NoEmptyListenerSet(run: seq<Event>, name: string)
    requires IsRun(run) && name in After(run).listeners
    ensures After(run).listeners[name] != {}
  {
    RunKeeps(run);
  }
}
