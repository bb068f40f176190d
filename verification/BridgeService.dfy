/** The bridge itself: a mutable listener table, request counter and timers. */
module BridgeService {
  import opened Wrappers
  import M = BridgeModel
  import T = BridgeTheorems

  class BridgeService {
    var listeners: map<string, set<M.Callback>>
    var requestCounter: nat
    // The promises handed out and the timeouts still pending.
    var requests: seq<M.Request>
    var timers: set<nat>
    // What was handed to the socket service.
    var outbox: seq<M.Outgoing>

    ghost function Snapshot(): M.State
      reads this
    {
      M.State(listeners, requestCounter, requests, timers, outbox)
    }

    /** What every run keeps. */
    ghost predicate Valid()
      reads this
    {
      T.Inv(Snapshot())
    }

    constructor ()
      ensures Valid() && Snapshot() == M.INITIAL
    {
      listeners, requestCounter, requests, timers, outbox := map[], 0, [], {}, [];
    }

    method On(name: string, cb: M.Callback)
      requires cb.Handler? ==> Valid()
      modifies `listeners
      ensures listeners == M.Subscribe(old(listeners), name, cb)
      ensures cb.Handler? ==> Valid()
    {
      if cb.Handler? { T.StepKeeps(Snapshot(), M.Subscribed(name, cb.id)); }
      if name !in listeners {
        listeners := listeners[name := {}];
      }
      listeners := listeners[name := listeners[name] + {cb}];
    }

    /** The function that `on` returns. */
    method Off(name: string, cb: M.Callback)
      requires cb.Handler? ==> Valid()
      modifies `listeners
      ensures listeners == M.Unsubscribe(old(listeners), name, cb)
      ensures cb.Handler? ==> Valid()
    {
      if cb.Handler? { T.StepKeeps(Snapshot(), M.Unsubscribed(name, cb.id)); }
      if name in listeners {
        var callbacks := listeners[name] - {cb};
        listeners := listeners[name := callbacks];
        if callbacks == {} {
          listeners := listeners - {name};
          assert listeners == old(listeners) - {name};
        }
      }
    }

    /** generateRequestId, for a clock that reads like this. */
    method GenerateRequestId(clock: string) returns (id: string)
      modifies `requestCounter
      ensures requestCounter == old(requestCounter) + 1 && id == M.RequestId(clock, requestCounter)
    {
      requestCounter := requestCounter + 1;
      return M.RequestId(clock, requestCounter);
    }

    method Emit(name: string, data: string, clock: string)
      requires Valid()
      modifies `requestCounter, `outbox
      ensures Valid() && Snapshot() == M.Emit(old(Snapshot()), name, data, clock)
    {
      T.StepKeeps(Snapshot(), M.EmitCalled(name, data, clock));
      var id := GenerateRequestId(clock);
      outbox := outbox + [M.Outgoing(M.Subject(name), id, data)];
    }

    method Request(name: string, data: string, clock: string)
      requires Valid()
      modifies this
      ensures Valid() && Snapshot() == M.SendRequest(old(Snapshot()), name, data, clock)
    {
      T.StepKeeps(Snapshot(), M.RequestCalled(name, data, clock));
      var id := GenerateRequestId(clock);
      var callbackName := M.CallbackName(name, id);
      var i := |requests|;
      timers := timers + {i};
      On(callbackName, M.Reply(i));
      requests := requests + [M.Request(callbackName, data, requestCounter, [])];
      outbox := outbox + [M.Outgoing(M.Subject(name), id, data)];
    }

    /** The reply handler of request i. */
    method HandleReply(i: nat, data: string)
      modifies this
      ensures Snapshot() == M.OnReply(old(Snapshot()), i, data)
    {
      if i >= |requests| { return; }
      timers := timers - {i};
      Off(requests[i].callbackName, M.Reply(i));
      requests := requests[i := requests[i].(settlings := requests[i].settlings + [M.Resolved(data)])];
    }

    method HandleTimeout(i: nat)
      requires Valid() && M.Enabled(Snapshot(), M.TimedOut(i))
      modifies this
      ensures Valid() && Snapshot() == M.OnTimeout(old(Snapshot()), i)
    {
      T.StepKeeps(Snapshot(), M.TimedOut(i));
      timers := timers - {i};
      Off(requests[i].callbackName, M.Reply(i));
      requests := requests[i := requests[i].(settlings := requests[i].settlings + [M.Rejected])];
    }

    /** The message route: every listener of the name is called once. */
    method HandleMessage(name: string, data: string, order: seq<M.Callback>)
      requires Valid() && M.Enabled(Snapshot(), M.MessageReceived(name, data, order))
      modifies this
      ensures Valid() && Snapshot() == M.Step(old(Snapshot()), M.MessageReceived(name, data, order))
    {
      T.StepKeeps(Snapshot(), M.MessageReceived(name, data, order));
      for k := 0 to |order|
        invariant Snapshot() == M.Broadcast(old(Snapshot()), order[..k], data)
      {
        assert order[..k + 1][..k] == order[..k];
        match order[k]
        case Reply(i) => HandleReply(i, data);
        case Handler(_) =>
      }
      assert order[..|order|] == order;
    }
  }
}
