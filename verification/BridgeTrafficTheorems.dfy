/** What the bridge sends and who listens, over every run, read off its events alone. */
module BridgeTrafficTheorems {
  import opened BridgeModel
  import opened BridgeTheorems
  import opened BridgeSettlementTheorems

  // ---------- What is sent ----------

  /** The calls of a run that send something. */
  function Calls(run: seq<Event>): seq<Event> {
    if run == [] then []
    else
      var last := run[|run| - 1];
      Calls(run[..|run| - 1]) + if last.RequestCalled? || last.EmitCalled? then [last] else []
  }

  /** The n-th call, counted from one, sends its data under its subject, with an id that ends in n. */
  predicate SentFor(o: Outgoing, call: Event, n: nat) {
    && (call.RequestCalled? || call.EmitCalled?)
    && o.subject == "subscribe-" + call.name && o.data == call.data
    && o.id == "m_" + call.clock + ("_" + Base36(n))
  }

  lemma StepSends(s: State, e: Event)
    requires Enabled(s, e) && !e.MessageReceived?
    ensures var t := Step(s, e);
      if e.RequestCalled? || e.EmitCalled?
      then t.counter == s.counter + 1 && |t.outbox| == |s.outbox| + 1 && s.outbox <= t.outbox
        && SentFor(t.outbox[|s.outbox|], e, s.counter + 1)
      else t.counter == s.counter && t.outbox == s.outbox
  {
  }

  lemma {:induction false} BroadcastSends(s: State, order: seq<Callback>, data: string)
    ensures Broadcast(s, order, data).outbox == s.outbox && Broadcast(s, order, data).counter == s.counter
  {
    if order == [] {
    } else {
      BroadcastSends(s, order[..|order| - 1], data);
    }
  }

  /** Exactly the calls send, each one message, in their order. */
  lemma {:induction false} OutboxIsCalls(run: seq<Event>)
    requires IsRun(run)
    ensures |After(run).outbox| == |Calls(run)| == After(run).counter
    ensures forall k: nat :: k < |Calls(run)| ==> SentFor(After(run).outbox[k], Calls(run)[k], k + 1)
  {
    if run == [] {
    } else {
      var init, last := run[..|run| - 1], run[|run| - 1];
      OutboxIsCalls(init);
      match last
      case MessageReceived(_, data, order) => BroadcastSends(After(init), order, data);
      case _ => StepSends(After(init), last);
    }
  }

  // ---------- Who listens ----------

  /** The last of a handler's subscriptions and removals under this name was a subscription. */
  predicate On(run: seq<Event>, name: string, id: nat) {
    run != [] &&
    var last := run[|run| - 1];
    last == Subscribed(name, id) || (last != Unsubscribed(name, id) && On(run[..|run| - 1], name, id))
  }

  ghost predicate Hears(s: State, name: string, id: nat) {
    Handler(id) in ListenersOf(s.listeners, name)
  }

  lemma {:induction false} BroadcastHears(s: State, order: seq<Callback>, data: string, name: string, id: nat)
    ensures Hears(Broadcast(s, order, data), name, id) <==> Hears(s, name, id)
  {
    if order == [] {
    } else {
      var init, last := order[..|order| - 1], order[|order| - 1];
      var before := Broadcast(s, init, data);
      BroadcastHears(s, init, data, name, id);
      if last.Reply? && last.request < |before.requests| {
        UnsubscribeMeans(before.listeners, before.requests[last.request].callbackName, last, name);
      }
    }
  }

  lemma StepHears(s: State, e: Event, name: string, id: nat)
    requires Enabled(s, e)
    ensures Hears(Step(s, e), name, id) <==>
      e == Subscribed(name, id) || (e != Unsubscribed(name, id) && Hears(s, name, id))
  {
    match e
    case RequestCalled(n, _, clock) =>
      SubscribeMeans(s.listeners, CallbackName(n, RequestId(clock, s.counter + 1)), Reply(|s.requests|), name);
    case Subscribed(n, k) => SubscribeMeans(s.listeners, n, Handler(k), name);
    case Unsubscribed(n, k) => UnsubscribeMeans(s.listeners, n, Handler(k), name);
    case MessageReceived(_, data, order) => BroadcastHears(s, order, data, name, id);
    case TimedOut(i) =>
      if i < |s.requests| { UnsubscribeMeans(s.listeners, s.requests[i].callbackName, Reply(i), name); }
    case EmitCalled(_, _, _) =>
  }

  /** A handler listens exactly from its subscription until its removal, whatever requests come and go. */
  lemma {:induction false} HandlerListensIff(run: seq<Event>, name: string, id: nat)
    requires IsRun(run)
    ensures Hears(After(run), name, id) <==> On(run, name, id)
  {
    if run == [] {
    } else {
      HandlerListensIff(run[..|run| - 1], name, id);
      StepHears(After(run[..|run| - 1]), run[|run| - 1], name, id);
    }
  }

  predicate Waits(s: State, name: string, i: nat) {
    i < |s.requests| && s.requests[i].callbackName == name && s.requests[i].settlings == []
  }

  /** And a message reaches exactly the handlers and the waiting requests of its name. */
  lemma MessageReaches(run: seq<Event>, name: string, data: string, order: seq<Callback>, cb: Callback)
    requires IsRun(run) && Enabled(After(run), MessageReceived(name, data, order))
    ensures cb in order <==> if cb.Handler? then On(run, name, cb.id) else Waits(After(run), name, cb.request)
  {
    assert cb in order <==> cb in (set x | x in order);
    RunKeeps(run);
    match cb
    case Handler(id) => HandlerListensIff(run, name, id);
    case Reply(i) => MessageIsFor(After(run), name, order, i);
  }

  // ---------- What can happen ----------

  /** Every call can be made at any time, and a timeout can fire exactly while its request waits. */
  lemma CallsAreFree(run: seq<Event>, e: Event)
    requires IsRun(run) && !e.MessageReceived?
    ensures var requests := After(run).requests;
      Enabled(After(run), e) <==> (e.TimedOut? ==> e.i < |requests| && requests[e.i].settlings == [])
  {
    RunKeeps(run);
    if e.TimedOut? && e.i < |After(run).requests| { assert RequestOk(After(run), e.i); }
  }

  function Elements(order: seq<Callback>): set<Callback> {
    set cb | cb in order
  }

  lemma {:induction false} AnyOrder(callbacks: set<Callback>) returns (order: seq<Callback>)
    ensures Enumerates(order, callbacks) && Elements(order) == callbacks
  {
    if callbacks == {} {
      order := [];
    } else {
      var cb :| cb in callbacks;
      var others := AnyOrder(callbacks - {cb});
      order := others + [cb];
      assert Elements(order) == Elements(others) + {cb} && cb !in Elements(others);
    }
  }

  /** A message can arrive under any name at any time. */
  lemma MessageCanArrive(s: State, name: string, data: string) returns (order: seq<Callback>)
    ensures Enabled(s, MessageReceived(name, data, order))
  {
    order := AnyOrder(ListenersOf(s.listeners, name));
  }
}
