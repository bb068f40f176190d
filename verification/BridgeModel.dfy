/** Requests and replies over the WebSocket: the bridge's listener table as a state machine. */
module BridgeModel {
  /** Who listens: the closure of one request, or a caller's handler (told apart by number). */
  datatype Callback = Reply(request: nat) | Handler(id: nat)

  datatype Settling = Resolved(data: string) | Rejected

  /** A request: the counter value it was issued, and every call that settled its promise. */
  datatype Request = Request(callbackName: string, data: string, issued: nat, settlings: seq<Settling>)

  /** What goes to the socket service. */
  datatype Outgoing = Outgoing(subject: string, id: string, data: string)

  datatype State = State(
    listeners: map<string, set<Callback>>,
    counter: nat,
    requests: seq<Request>,
    timers: set<nat>,
    outbox: seq<Outgoing>)

  const INITIAL: State := State(map[], 0, [], {}, [])

  // ---------- Names ----------

  function Digit(d: nat): char
    requires d < 36
  {
    if d < 10 then '0' + d as char else 'a' + (d - 10) as char
  }

  /** `n.toString(36)` */
  function Base36(n: nat): string {
    if n < 36 then [Digit(n)] else Base36(n / 36) + [Digit(n % 36)]
  }

  /** The clock's digits are left open. */
  function RequestId(clock: string, counter: nat): string {
    "m_" + clock + ("_" + Base36(counter))
  }

  function CallbackName(name: string, id: string): string {
    "subscribe.callback-" + name + id
  }

  function Subject(name: string): string {
    "subscribe-" + name
  }

  // ---------- Operations ----------

  function ListenersOf(listeners: map<string, set<Callback>>, name: string): set<Callback> {
    if name in listeners then listeners[name] else {}
  }

  function Subscribe(listeners: map<string, set<Callback>>, name: string, cb: Callback): map<string, set<Callback>> {
    listeners[name := ListenersOf(listeners, name) + {cb}]
  }

  function Unsubscribe(listeners: map<string, set<Callback>>, name: string, cb: Callback): map<string, set<Callback>> {
    if name !in listeners then listeners
    else
      var left := listeners[name] - {cb};
      if left == {} then listeners - {name} else listeners[name := left]
  }

  function Settle(requests: seq<Request>, i: nat, s: Settling): seq<Request> {
    if i < |requests| then requests[i := requests[i].(settlings := requests[i].settlings + [s])] else requests
  }

  function SendRequest(s: State, name: string, data: string, clock: string): State {
    var i := |s.requests|;
    var id := RequestId(clock, s.counter + 1);
    var callbackName := CallbackName(name, id);
    State(Subscribe(s.listeners, callbackName, Reply(i)), s.counter + 1,
          s.requests + [Request(callbackName, data, s.counter + 1, [])], s.timers + {i},
          s.outbox + [Outgoing(Subject(name), id, data)])
  }

  function Emit(s: State, name: string, data: string, clock: string): State {
    var id := RequestId(clock, s.counter + 1);
    s.(counter := s.counter + 1, outbox := s.outbox + [Outgoing(Subject(name), id, data)])
  }

  /** What the closure of request i does with a reply. */
  function OnReply(s: State, i: nat, data: string): State {
    if i >= |s.requests| then s
    else
      s.(timers := s.timers - {i},
         listeners := Unsubscribe(s.listeners, s.requests[i].callbackName, Reply(i)),
         requests := Settle(s.requests, i, Resolved(data)))
  }

  function OnTimeout(s: State, i: nat): State {
    if i >= |s.requests| then s
    else
      s.(timers := s.timers - {i},
         listeners := Unsubscribe(s.listeners, s.requests[i].callbackName, Reply(i)),
         requests := Settle(s.requests, i, Rejected))
  }

  /** A message broadcast to the listeners of its name, in the order given. */
  function Broadcast(s: State, order: seq<Callback>, data: string): State {
    if order == [] then s
    else
      var last := order[|order| - 1];
      var before := Broadcast(s, order[..|order| - 1], data);
      if last.Reply? then OnReply(before, last.request, data) else before
  }

  /** The elements of a set, each once: a Set iterates in insertion order, which is not recorded here. */
  predicate Enumerates(order: seq<Callback>, callbacks: set<Callback>) {
    && (set cb | cb in order) == callbacks
    && (forall i, j :: 0 <= i < j < |order| ==> order[i] != order[j])
  }

  datatype Event =
    | RequestCalled(name: string, data: string, clock: string)
    | EmitCalled(name: string, data: string, clock: string)
    | Subscribed(name: string, id: nat)
    | Unsubscribed(name: string, id: nat)
    | MessageReceived(name: string, data: string, order: seq<Callback>)
    | TimedOut(i: nat)

  predicate Enabled(s: State, e: Event) {
    match e
    case MessageReceived(name, _, order) => Enumerates(order, ListenersOf(s.listeners, name))
    case TimedOut(i) => i in s.timers
    case _ => true
  }

  function Step(s: State, e: Event): State
    requires Enabled(s, e)
  {
    match e
    case RequestCalled(name, data, clock) => SendRequest(s, name, data, clock)
    case EmitCalled(name, data, clock) => Emit(s, name, data, clock)
    case Subscribed(name, id) => s.(listeners := Subscribe(s.listeners, name, Handler(id)))
    case Unsubscribed(name, id) => s.(listeners := Unsubscribe(s.listeners, name, Handler(id)))
    case MessageReceived(_, data, order) => Broadcast(s, order, data)
    case TimedOut(i) => OnTimeout(s, i)
  }

  predicate IsRun(run: seq<Event>)
    decreases |run|, 0
  {
    run == [] || (IsRun(run[..|run| - 1]) && Enabled(After(run[..|run| - 1]), run[|run| - 1]))
  }

  function After(run: seq<Event>): State
    requires IsRun(run)
    decreases |run|, 1
  {
    if run == [] then INITIAL else Step(After(run[..|run| - 1]), run[|run| - 1])
  }
}
