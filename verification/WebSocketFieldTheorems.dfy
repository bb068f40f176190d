/** What each event does to the timers, the sockets, the state shown and the authentication, field by field. */
module WebSocketFieldTheorems {
  import opened Numbers
  import opened Wrappers
  import opened WebSocketModel
  import opened WebSocketTheorems

  // ---------- Reconnect timers ----------

  /** Connecting is tried, and fails because no socket can be constructed. */
  predicate FailsToConnect(s: State, env: Env) {
    !InUse(Ready(s.link)) && CanConnect(s, env) && !env.constructs
  }

  /** The events that set a reconnect timer. */
  predicate SetsTimer(s: State, e: Event) {
    match e
    case CallConnect(env) => s.retry.held.None? && FailsToConnect(s, env)
    case CallSend(_, env) => s.retry.held.None? && Ready(s.link) == CLOSED && FailsToConnect(s, env)
    case SocketPinged(_, _, env) => s.retry.held.None? && Ready(s.link) == CLOSED && FailsToConnect(s, env)
    case CallReconnect(env) => CanConnect(s, env) && !env.constructs
    case TimerFired(_, env) => FailsToConnect(s, env)
    case SocketClosed(_, policyViolation) => !policyViolation && s.retry.wanted && s.retry.held.None?
    case _ => false
  }

  /** And those that clear it: it fires, or nobody wants it any more. */
  predicate ClearsTimer(s: State, e: Event) {
    e.TimerFired? || e.CallDisconnect? || e.CallReconnect? || FailsAuth(s, e)
  }

  lemma ConnectTimers(s: State, env: Env)
    requires LinkOk(s.link) && RetryOk(s.retry)
    ensures Connect(s, env).retry.pending ==
      if FailsToConnect(s, env) && s.retry.held.None? then {Timer(s.nextId, s.retry.delay)}
      else if Expires(s, env) && Unhandled(s) then {}
      else s.retry.pending
  {
  }

  lemma ChallengeTimers(s: State)
    requires RetryOk(s.retry)
    ensures ChallengeAuth(s).retry.pending == if Unhandled(s) then {} else s.retry.pending
  {
  }

  /** The timers pending after an event. */
  lemma TimersAfter(s: State, e: Event, sent: seq<WsMessage>, firings: nat)
    requires Inv(s, sent, firings) && Enabled(s, e)
    ensures Step(s, e).retry.pending ==
      if SetsTimer(s, e) then {Timer(s.nextId, Backoff(CountFiring(firings, e)))}
      else if ClearsTimer(s, e) then {}
      else s.retry.pending
  {
    match e
    case CallConnect(env) => ConnectTimers(s, env);
    case CallSend(message, env) =>
      SendTimers(s, message, env);
      ConnectTimers(s, env);
    case SocketPinged(_, pong, env) =>
      SendTimers(s, pong, env);
      ConnectTimers(s, env);
    case CallReconnect(env) =>
      assert Backoff(0) == INITIAL_DELAY;
      var t := Disconnect(s);
      ConnectTimers(t.(retry := t.retry.(wanted := true, delay := INITIAL_DELAY)), env);
    case TimerFired(timer, env) =>
      FiredRetry(s, timer, sent, firings);
      ConnectTimers(
        s.(retry := Retry(None, s.retry.pending - {timer}, Doubled(s.retry.delay), s.retry.wanted)), env);
    case SocketAuthExpired(_) => ChallengeTimers(s);
    case SocketClosed(i, _) =>
      var link := Link(None, s.link.sockets[i := CLOSED], s.link.state);
      ChallengeTimers(s.(link := link, watch := StopDeadCheck(s.watch)));
    case _ =>
  }

  lemma SendTimers(s: State, message: WsMessage, env: Env)
    requires LinkOk(s.link) && RetryOk(s.retry)
    ensures Send(s, message, env).retry.pending ==
      if Ready(s.link) == CLOSED then Connect(s, env).retry.pending else s.retry.pending
  {
  }

  /** Exactly these set one, and it waits the backoff of the firings counted by then. */
  lemma TimerSetIff(s: State, e: Event, sent: seq<WsMessage>, firings: nat)
    requires Inv(s, sent, firings) && Enabled(s, e)
    ensures var t := Step(s, e);
      && (SetsTimer(s, e) <==> exists x :: x in t.retry.pending && x !in s.retry.pending)
      && (forall x :: x in t.retry.pending && x !in s.retry.pending ==> x.delay == Backoff(CountFiring(firings, e)))
  {
    TimersAfter(s, e, sent, firings);
    var x := Timer(s.nextId, Backoff(CountFiring(firings, e)));
    assert x !in s.retry.pending;
    assert SetsTimer(s, e) ==> x in Step(s, e).retry.pending;
  }

  lemma InitIsRun(run: seq<Event>)
    requires IsRun(INITIAL, run) && run != []
    ensures IsRun(INITIAL, run[..|run| - 1]) && Enabled(After(INITIAL, run[..|run| - 1]), run[|run| - 1])
    ensures After(INITIAL, run) == Step(After(INITIAL, run[..|run| - 1]), run[|run| - 1])
  {
  }

  /** Half a second, one, two and four seconds, and eight from then on. */
  lemma {:induction false} BackoffIs(k: nat)
    ensures Backoff(k) == if k < 4 then [500, 1000, 2000, 4000][k] else 8000
  {
    if k == 0 {
      assert Pow2(0) == 1;
    } else {
      BackoffIs(k - 1);
      BackoffDoubles(k - 1);
    }
  }

  /** The event that set a timer pending after a run: it waits the backoff of the firings counted then. */
  lemma {:induction false} PendingWaits(run: seq<Event>, x: Timer) returns (n: nat)
    requires IsRun(INITIAL, run) && x in After(INITIAL, run).retry.pending
    ensures n < |run| && IsRun(INITIAL, run[..n]) && SetsTimer(After(INITIAL, run[..n]), run[n])
    ensures x.delay == Backoff(Firings(run[..n + 1]))
  {
    var init, last := run[..|run| - 1], run[|run| - 1];
    InitIsRun(run);
    RunKeeps(init);
    if x in After(INITIAL, init).retry.pending {
      n := PendingWaits(init, x);
      SamePrefix(run, n);
    } else {
      n := |run| - 1;
      TimerSetIff(After(INITIAL, init), last, Sent(init), Firings(init));
      assert run[..n + 1] == run;
    }
  }

  lemma SamePrefix(run: seq<Event>, n: nat)
    requires n < |run| - 1
    ensures var init := run[..|run| - 1]; init[..n] == run[..n] && init[..n + 1] == run[..n + 1] && init[n] == run[n]
  {
  }

  /** A timer stays pending until it fires or is cleared. */
  lemma TimerGoneIff(s: State, e: Event, sent: seq<WsMessage>, firings: nat, x: Timer)
    requires Inv(s, sent, firings) && Enabled(s, e) && x in s.retry.pending
    ensures x !in Step(s, e).retry.pending <==> ClearsTimer(s, e)
  {
    TimersAfter(s, e, sent, firings);
  }

  // ---------- Authentication ----------

  /** A challenge that no one handles fails at once. */
  predicate Unhandled(s: State) {
    !s.auth.handling && !s.auth.handler
  }

  /** Connecting is tried with an expired token. */
  predicate Expires(s: State, env: Env) {
    !InUse(Ready(s.link)) && s.config.host != "" && s.config.port != "" && env.expired
  }

  predicate Challenges(s: State, e: Event) {
    match e
    case CallConnect(env) => Expires(s, env)
    case CallSend(_, env) => Ready(s.link) == CLOSED && Expires(s, env)
    case SocketPinged(_, _, env) => Ready(s.link) == CLOSED && Expires(s, env)
    case CallReconnect(env) => s.config.host != "" && s.config.port != "" && env.expired
    case TimerFired(_, env) => Expires(s, env)
    case SocketAuthExpired(_) => true
    case SocketClosed(_, policyViolation) => policyViolation
    case _ => false
  }

  predicate FailsAuth(s: State, e: Event) {
    (Challenges(s, e) && Unhandled(s)) || e == AuthSettled(false)
  }

  /** One challenge at a time; it ends when its handler settles, or at once without one. */
  lemma HandlingAfter(s: State, e: Event)
    requires LinkOk(s.link) && Enabled(s, e)
    ensures var handling := Step(s, e).auth.handling;
      if e.AuthSettled? then !handling
      else handling <==> s.auth.handling || (Challenges(s, e) && s.auth.handler)
  {
  }

  /** A failed recovery gives up: no timer, no wish to reconnect, the held socket on its way out. */
  lemma FailedAuthGivesUp(s: State, e: Event, sent: seq<WsMessage>, firings: nat)
    requires Inv(s, sent, firings) && Enabled(s, e) && FailsAuth(s, e)
    ensures var t := Step(s, e);
      && t.link.state == AuthFailed && !InUse(Ready(t.link))
      && t.retry.pending == {} && t.retry.held.None? && !t.retry.wanted
  {
    StepKeeps(s, e, sent, firings);
    TimersAfter(s, e, sent, firings);
    FailedAuthCloses(s, e);
    WishAfter(s, e);
  }

  lemma FailedAuthCloses(s: State, e: Event)
    requires LinkOk(s.link) && Enabled(s, e) && FailsAuth(s, e)
    ensures Step(s, e).link.state == AuthFailed && !InUse(Ready(Step(s, e).link))
  {
  }

  // ---------- The state shown ----------

  function ChallengedState(s: State): ConnectionState {
    if Unhandled(s) then AuthFailed else s.link.state
  }

  function ConnectedState(s: State, env: Env): ConnectionState {
    if InUse(Ready(s.link)) then s.link.state
    else if s.config.host == "" || s.config.port == "" then Disconnected
    else if env.expired then ChallengedState(s)
    else Connecting
  }

  /** What listeners are shown after each event. */
  function StateAfter(s: State, e: Event): ConnectionState {
    match e
    case CallConnect(env) => ConnectedState(s, env)
    case CallSend(_, env) => if Ready(s.link) == CLOSED then ConnectedState(s, env) else s.link.state
    case SocketPinged(_, _, env) => if Ready(s.link) == CLOSED then ConnectedState(s, env) else s.link.state
    case TimerFired(_, env) => ConnectedState(s, env)
    case CallDisconnect => Disconnected
    case CallReconnect(env) =>
      if s.config.host == "" || s.config.port == "" then Disconnected
      else if env.expired then if Unhandled(s) then AuthFailed else Disconnected
      else Connecting
    case SocketOpened(_, _) => Connected
    case SocketAuthExpired(_) => ChallengedState(s)
    case SocketClosed(_, policyViolation) =>
      if policyViolation then ChallengedState(s) else if s.retry.wanted then Disconnected else s.link.state
    case AuthSettled(recovered) => if recovered then s.link.state else AuthFailed
    case _ => s.link.state
  }

  lemma StateIsTold(s: State, e: Event)
    requires LinkOk(s.link) && Enabled(s, e)
    ensures Step(s, e).link.state == StateAfter(s, e)
  {
  }

  // ---------- Sockets and the check on them ----------

  predicate Connects(s: State, env: Env) {
    !InUse(Ready(s.link)) && CanConnect(s, env) && env.constructs
  }

  predicate MakesSocket(s: State, e: Event) {
    match e
    case CallConnect(env) => Connects(s, env)
    case CallSend(_, env) => Ready(s.link) == CLOSED && Connects(s, env)
    case SocketPinged(_, _, env) => Ready(s.link) == CLOSED && Connects(s, env)
    case CallReconnect(env) => CanConnect(s, env) && env.constructs
    case TimerFired(_, env) => Connects(s, env)
    case _ => false
  }

  /** Exactly these make a socket; it is connecting, and held. */
  lemma SocketMadeIff(s: State, e: Event)
    requires LinkOk(s.link) && Enabled(s, e)
    ensures var t, n := Step(s, e), |s.link.sockets|;
      if MakesSocket(s, e)
      then |t.link.sockets| == n + 1 && t.link.sockets[n] == CONNECTING && t.link.socket == Some(n)
      else |t.link.sockets| == n
  {
  }

  /** The events that begin to close the held socket. */
  predicate Closes(s: State, e: Event) {
    || e.CallDisconnect? || e.CallReconnect? || e.SocketFailed?
    || (e.DeadCheckFired? && e.stale)
    || (FailsAuth(s, e) && !e.SocketClosed?)
  }

  /** How a socket looks once the held one has begun to close, if it should. */
  function Closing(link: Link, j: nat, closes: bool): ReadyState
    requires j < |link.sockets|
  {
    if closes && link.socket == Some(j) && InUse(link.sockets[j]) then CLOSING else link.sockets[j]
  }

  lemma ConnectSockets(s: State, env: Env, j: nat)
    requires LinkOk(s.link) && j < |s.link.sockets|
    ensures j < |Connect(s, env).link.sockets|
    ensures Connect(s, env).link.sockets[j] == s.link.sockets[j]
  {
  }

  lemma SendSockets(s: State, message: WsMessage, env: Env, j: nat)
    requires LinkOk(s.link) && j < |s.link.sockets|
    ensures j < |Send(s, message, env).link.sockets|
    ensures Send(s, message, env).link.sockets[j] == s.link.sockets[j]
  {
    ConnectSockets(s, env, j);
  }

  /** What becomes of a socket: its own reports, and the close of the one held. */
  lemma SocketAfter(s: State, e: Event, j: nat)
    requires LinkOk(s.link) && Enabled(s, e) && j < |s.link.sockets|
    ensures j < |Step(s, e).link.sockets|
    ensures Step(s, e).link.sockets[j] ==
      if e.SocketOpened? && e.i == j then OPEN
      else if e.SocketClosed? && e.i == j then CLOSED
      else Closing(s.link, j, Closes(s, e))
  {
    match e
    case CallConnect(env) => ConnectSockets(s, env, j);
    case CallSend(message, env) => SendSockets(s, message, env, j);
    case SocketPinged(_, pong, env) => SendSockets(s, pong, env, j);
    case CallReconnect(env) =>
      var t := Disconnect(s);
      ConnectSockets(t.(retry := t.retry.(wanted := true, delay := INITIAL_DELAY)), env, j);
    case _ =>
  }

  /** The check on dead connections runs from an open until a close, a disconnect or a reconnect. */
  lemma CheckAfter(s: State, e: Event)
    requires Enabled(s, e)
    ensures Step(s, e).watch.held.Some? <==>
      e.SocketOpened? || (s.watch.held.Some? && !e.SocketClosed? && !e.CallDisconnect? && !e.CallReconnect?)
  {
  }

  // ---------- The wish to reconnect ----------

  /** The events that renew it: a reconnect call, and connecting with a server and a valid token. */
  predicate Renews(s: State, e: Event) {
    match e
    case CallConnect(env) => !InUse(Ready(s.link)) && CanConnect(s, env)
    case CallSend(_, env) => Ready(s.link) == CLOSED && CanConnect(s, env)
    case SocketPinged(_, _, env) => Ready(s.link) == CLOSED && CanConnect(s, env)
    case TimerFired(_, env) => !InUse(Ready(s.link)) && CanConnect(s, env)
    case CallReconnect(_) => true
    case _ => false
  }

  lemma WishAfter(s: State, e: Event)
    requires LinkOk(s.link) && Enabled(s, e)
    ensures Step(s, e).retry.wanted <==>
      !FailsAuth(s, e) && !e.CallDisconnect? && (Renews(s, e) || s.retry.wanted)
  {
  }

  // ---------- The mail ----------

  /** All of the queue went out, or this many; the send behind them threw, and took its message with it. */
  predicate Flushed(before: Mail, after: Mail, capacity: nat) {
    if |before.queue| <= capacity then
      && after.transmitted == before.transmitted + before.queue && after.queue == []
      && after.lost == before.lost && after.refused == before.refused
    else
      && |after.transmitted| == |before.transmitted| + capacity && after.refused
      && after.transmitted + [before.queue[capacity]] + after.queue == before.transmitted + before.queue
      && after.lost == before.lost + [before.queue[capacity]]
  }

  /** A message went out, or joined the queue; on an open socket only because its send threw. */
  predicate Mailed(before: Mail, after: Mail, message: WsMessage, open: bool, capacity: nat) {
    if open && capacity > 0
    then after == Mail(before.queue, before.transmitted + [message], before.lost, before.refused)
    else after == Mail(before.queue + [message], before.transmitted, before.lost, before.refused || open)
  }

  ghost predicate MailIs(s: State, e: Event, after: Mail) {
    match e
    case CallSend(message, env) => Mailed(s.mail, after, message, Ready(s.link) == OPEN, env.capacity)
    case SocketPinged(_, pong, env) => Mailed(s.mail, after, pong, Ready(s.link) == OPEN, env.capacity)
    case SocketOpened(i, env) =>
      if s.link.socket == Some(i) || Ready(s.link) == OPEN then Flushed(s.mail, after, env.capacity)
      else after == s.mail
    case CallDisconnect => after == Mail([], [], [], false)
    case CallReconnect(_) => after == Mail([], [], [], false)
    case _ => after == s.mail
  }

  lemma FlushIs(mail: Mail, capacity: nat)
    ensures Flushed(mail, FlushQueue(mail, capacity), capacity)
  {
    var q := mail.queue;
    if capacity < |q| { assert q == q[..capacity] + [q[capacity]] + q[capacity + 1..]; }
  }

  /** Sends, opens, disconnects and reconnects move messages, each in its way, and no other event moves any. */
  lemma MailAfter(s: State, e: Event)
    requires LinkOk(s.link) && Enabled(s, e)
    ensures MailIs(s, e, Step(s, e).mail)
  {
    match e
    case SocketOpened(_, env) => FlushIs(s.mail, env.capacity);
    case _ =>
  }

  // ---------- The settings ----------

  function ConfigAfter(config: Config, e: Event): Config {
    match e
    case CallConfigure(host, port, token) => Config(host, port, token)
    case CallUpdateToken(token) => Config(config.host, config.port, token)
    case _ => config
  }

  /** Only these calls change what the service connects with, and only its own call who answers a challenge. */
  lemma SettingsAfter(s: State, e: Event)
    requires Enabled(s, e)
    ensures Step(s, e).config == ConfigAfter(s.config, e)
    ensures Step(s, e).auth.handler == if e.CallSetAuthHandler? then e.present else s.auth.handler
  {
  }

  predicate MayReport(s: State, i: nat, states: set<ReadyState>) {
    i < |s.link.sockets| && s.link.sockets[i] in states
  }

  /** Every call can be made at any time, and any socket that has not closed may report, held or not. */
  lemma NothingIsRefused(s: State, e: Event)
    requires || e.CallConnect? || e.CallSend? || e.CallDisconnect? || e.CallReconnect? || e.CallConfigure?
             || e.CallUpdateToken? || e.CallSetAuthHandler?
             || ((e.SocketFailed? || e.SocketClosed?) && MayReport(s, e.i, {CONNECTING, OPEN, CLOSING}))
             || (e.SocketOpened? && MayReport(s, e.i, {CONNECTING, CLOSING}))
             || ((e.SocketPinged? || e.SocketAuthExpired?) && MayReport(s, e.i, {OPEN, CLOSING}))
    ensures Enabled(s, e)
  {
  }
}
