/**
 * The mobile client's WebSocket connection manager as a state machine: one function per
 * method, callback or platform event, over a value that holds the service's fields and
 * what the platform holds for it (sockets, timers, what the wire has carried).
 */
module WebSocketModel {
  import opened Wrappers

  const INITIAL_DELAY: nat := 500
  const MAX_DELAY: nat := 8000

  datatype WsMessage = WsMessage(name: string, data: string)

  datatype ReadyState = CONNECTING | OPEN | CLOSING | CLOSED

  datatype ConnectionState = Disconnected | Connecting | Connected | AuthFailed

  datatype Timer = Timer(id: nat, delay: nat)

  /**
   * What the environment answers while one event is handled: whether the token has expired,
   * whether a socket can be constructed, and how many sends succeed before one throws.
   */
  datatype Env = Env(expired: bool, constructs: bool, capacity: nat)

  /** Every socket ever constructed, in order, and the one the service holds. */
  datatype Link = Link(socket: Option<nat>, sockets: seq<ReadyState>, state: ConnectionState)

  /**
   * The queue, and since the last disconnect: what an open socket took, what a throwing send
   * dropped, and whether any send on an open socket threw.
   */
  datatype Mail = Mail(queue: seq<WsMessage>, transmitted: seq<WsMessage>, lost: seq<WsMessage>, refused: bool)

  /** The reconnect timer the service holds, the timeouts the platform has pending, the next delay. */
  datatype Retry = Retry(held: Option<Timer>, pending: set<Timer>, delay: nat, wanted: bool)

  /** The dead-connection check: the interval held and those the platform runs. */
  datatype Watch = Watch(held: Option<nat>, pending: set<nat>)

  datatype Auth = Auth(handler: bool, handling: bool)

  datatype Config = Config(host: string, port: string, token: string)

  datatype State = State(
    link: Link, mail: Mail, retry: Retry, watch: Watch, auth: Auth, config: Config, nextId: nat)

  const INITIAL: State := State(
    Link(None, [], Disconnected), Mail([], [], [], false), Retry(None, {}, INITIAL_DELAY, true),
    Watch(None, {}), Auth(false, false), Config("", "", ""), 0)

  // ---------- The service's operations ----------

  /** A missing socket and a closed one are the same to every branch of the source. */
  function Ready(link: Link): ReadyState {
    if link.socket.Some? && link.socket.value < |link.sockets| then link.sockets[link.socket.value] else CLOSED
  }

  predicate Live(r: ReadyState) {
    r == CONNECTING || r == OPEN
  }

  function CloseSocket(link: Link): Link {
    if Live(Ready(link)) then link.(sockets := link.sockets[link.socket.value := CLOSING]) else link
  }

  function ScheduleReconnect(s: State): State {
    if s.retry.held.Some? || !s.retry.wanted then s
    else
      var timer := Timer(s.nextId, s.retry.delay);
      s.(retry := s.retry.(held := Some(timer), pending := s.retry.pending + {timer}), nextId := s.nextId + 1)
  }

  function ClearReconnectTimer(retry: Retry): Retry {
    if retry.held.None? then retry
    else retry.(held := None, pending := retry.pending - {retry.held.value})
  }

  function StopDeadCheck(watch: Watch): Watch {
    if watch.held.None? then watch
    else Watch(None, watch.pending - {watch.held.value})
  }

  function StartDeadCheck(s: State): State {
    s.(watch := Watch(Some(s.nextId), StopDeadCheck(s.watch).pending + {s.nextId}), nextId := s.nextId + 1)
  }

  function FailAuth(s: State): State {
    s.(retry := ClearReconnectTimer(s.retry.(wanted := false)),
       link := CloseSocket(s.link).(state := AuthFailed))
  }

  /** Up to the await; without a handler there is none and recovery fails at once. */
  function ChallengeAuth(s: State): State {
    if s.auth.handling then s
    else if s.auth.handler then s.(auth := s.auth.(handling := true))
    else FailAuth(s)
  }

  function Connect(s: State, env: Env): State {
    if Live(Ready(s.link)) then s
    else if s.config.host == "" || s.config.port == "" then s.(link := s.link.(state := Disconnected))
    else if env.expired then ChallengeAuth(s)
    else
      var t := s.(retry := s.retry.(wanted := true));
      if env.constructs then
        t.(link := Link(Some(|s.link.sockets|), s.link.sockets + [CONNECTING], Connecting))
      else ScheduleReconnect(t.(link := s.link.(state := Connecting)))
  }

  function Send(s: State, message: WsMessage, env: Env): State {
    var ready := Ready(s.link);
    if ready == OPEN && env.capacity > 0 then
      s.(mail := s.mail.(transmitted := s.mail.transmitted + [message]))
    else
      var t := s.(mail := s.mail.(queue := s.mail.queue + [message], refused := s.mail.refused || ready == OPEN));
      if ready == CLOSED then Connect(t, env) else t
  }

  /** Shifts messages out in order; the send after the capacity-th throws, and its message is gone. */
  function FlushQueue(mail: Mail, capacity: nat): Mail {
    if |mail.queue| <= capacity then
      mail.(transmitted := mail.transmitted + mail.queue, queue := [])
    else
      Mail(mail.queue[capacity + 1..], mail.transmitted + mail.queue[..capacity],
           mail.lost + [mail.queue[capacity]], true)
  }

  function Disconnect(s: State): State {
    s.(link := Link(None, CloseSocket(s.link).sockets, Disconnected),
       mail := Mail([], [], [], false),
       retry := ClearReconnectTimer(s.retry.(wanted := false)),
       watch := StopDeadCheck(s.watch))
  }

  function Reconnect(s: State, env: Env): State {
    var t := Disconnect(s);
    Connect(t.(retry := t.retry.(wanted := true, delay := INITIAL_DELAY)), env)
  }

  /** Whichever socket opened, the service flushes to the one it holds. */
  function OnOpen(s: State, i: nat, env: Env): State
    requires i < |s.link.sockets|
  {
    var link := Link(s.link.socket, s.link.sockets[i := OPEN], Connected);
    StartDeadCheck(s.(
      link := link,
      mail := if Ready(link) == OPEN then FlushQueue(s.mail, env.capacity) else s.mail,
      retry := s.retry.(delay := INITIAL_DELAY)))
  }

  /** Whichever socket closed, the service forgets the one it holds. */
  function OnClose(s: State, i: nat, policyViolation: bool): State
    requires i < |s.link.sockets|
  {
    var t := s.(link := Link(None, s.link.sockets[i := CLOSED], s.link.state), watch := StopDeadCheck(s.watch));
    if policyViolation then ChallengeAuth(t)
    else if t.retry.wanted then ScheduleReconnect(t.(link := t.link.(state := Disconnected)))
    else t
  }

  function Doubled(delay: nat): nat {
    if delay * 2 < MAX_DELAY then delay * 2 else MAX_DELAY
  }

  function OnReconnectTimer(s: State, timer: Timer, env: Env): State {
    Connect(s.(retry := Retry(None, s.retry.pending - {timer}, Doubled(s.retry.delay), s.retry.wanted)), env)
  }

  function OnAuthSettled(s: State, recovered: bool): State {
    var t := s.(auth := s.auth.(handling := false));
    if recovered then t else FailAuth(t)
  }

  // ---------- Events and runs ----------

  datatype Event =
    | CallConnect(env: Env)
    | CallSend(message: WsMessage, env: Env)
    | CallDisconnect
    | CallReconnect(env: Env)
    | CallConfigure(host: string, port: string, token: string)
    | CallUpdateToken(token: string)
    | CallSetAuthHandler(present: bool)
    | SocketOpened(i: nat, env: Env)
    | SocketPinged(i: nat, pong: WsMessage, env: Env)
    | SocketAuthExpired(i: nat)
    | SocketFailed(i: nat)
    | SocketClosed(i: nat, policyViolation: bool)
    | TimerFired(timer: Timer, env: Env)
    | DeadCheckFired(id: nat, stale: bool)
    | AuthSettled(recovered: bool)

  /**
   * What the platform may deliver. Any socket that has not reported its close may report
   * anything, whether or not the service still holds it; an open report may even overtake a close call.
   */
  predicate Enabled(s: State, e: Event) {
    match e
    case SocketOpened(i, _) => i < |s.link.sockets| && s.link.sockets[i] in {CONNECTING, CLOSING}
    case SocketPinged(i, _, _) => i < |s.link.sockets| && s.link.sockets[i] in {OPEN, CLOSING}
    case SocketAuthExpired(i) => i < |s.link.sockets| && s.link.sockets[i] in {OPEN, CLOSING}
    case SocketFailed(i) => i < |s.link.sockets| && s.link.sockets[i] != CLOSED
    case SocketClosed(i, _) => i < |s.link.sockets| && s.link.sockets[i] != CLOSED
    case TimerFired(timer, _) => timer in s.retry.pending
    case DeadCheckFired(id, _) => id in s.watch.pending
    case AuthSettled(_) => s.auth.handling
    case _ => true
  }

  function Step(s: State, e: Event): State
    requires Enabled(s, e)
  {
    match e
    case CallConnect(env) => Connect(s, env)
    case CallSend(message, env) => Send(s, message, env)
    case CallDisconnect => Disconnect(s)
    case CallReconnect(env) => Reconnect(s, env)
    case CallConfigure(host, port, token) => s.(config := Config(host, port, token))
    case CallUpdateToken(token) => s.(config := s.config.(token := token))
    case CallSetAuthHandler(present) => s.(auth := s.auth.(handler := present))
    case SocketOpened(i, env) => OnOpen(s, i, env)
    case SocketPinged(_, pong, env) => Send(s, pong, env)
    case SocketAuthExpired(_) => ChallengeAuth(s)
    case SocketFailed(_) => s.(link := CloseSocket(s.link))
    case SocketClosed(i, policyViolation) => OnClose(s, i, policyViolation)
    case TimerFired(timer, env) => OnReconnectTimer(s, timer, env)
    case DeadCheckFired(_, stale) => if stale then s.(link := CloseSocket(s.link)) else s
    case AuthSettled(recovered) => OnAuthSettled(s, recovered)
  }

  predicate IsRun(s: State, run: seq<Event>)
    decreases |run|, 0
  {
    run == [] || (IsRun(s, run[..|run| - 1]) && Enabled(After(s, run[..|run| - 1]), run[|run| - 1]))
  }

  function After(s: State, run: seq<Event>): State
    requires IsRun(s, run)
    decreases |run|, 1
  {
    if run == [] then s else Step(After(s, run[..|run| - 1]), run[|run| - 1])
  }
}
