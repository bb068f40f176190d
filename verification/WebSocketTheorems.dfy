/** Safety of the connection manager over every run of calls and platform events. */
module WebSocketTheorems {
  import opened Numbers
  import opened Wrappers
  import opened WebSocketModel

  // ---------- What a run has asked for, read off its events alone ----------

  /** The messages accepted since the last disconnect, in order. */
  function Sent(run: seq<Event>): seq<WsMessage> {
    if run == [] then [] else Accept(Sent(run[..|run| - 1]), run[|run| - 1])
  }

  function Accept(sent: seq<WsMessage>, e: Event): seq<WsMessage> {
    match e
    case CallSend(message, _) => sent + [message]
    case SocketPinged(_, pong, _) => sent + [pong]
    case CallDisconnect => []
    case CallReconnect(_) => []
    case _ => sent
  }

  /** How often a reconnect timer has fired since a socket last opened or the caller last reconnected. */
  function Firings(run: seq<Event>): nat {
    if run == [] then 0 else CountFiring(Firings(run[..|run| - 1]), run[|run| - 1])
  }

  function CountFiring(k: nat, e: Event): nat {
    match e
    case TimerFired(_, _) => k + 1
    case SocketOpened(_, _) => 0
    case CallReconnect(_) => 0
    case _ => k
  }

  function Backoff(k: nat): nat {
    if INITIAL_DELAY * Pow2(k) < MAX_DELAY then INITIAL_DELAY * Pow2(k) else MAX_DELAY
  }

  // ---------- The invariant ----------

  ghost predicate LinkOk(link: Link) {
    link.socket.Some? ==> link.socket.value < |link.sockets| && Ready(link) != CLOSED
  }

  /** The only timeout the platform can fire is the one held, and only a service that wants to reconnect holds one. */
  ghost predicate RetryOk(retry: Retry) {
    && retry.pending == (if retry.held.Some? then {retry.held.value} else {})
    && (retry.held.Some? ==> retry.wanted && INITIAL_DELAY <= retry.held.value.delay <= MAX_DELAY)
    && INITIAL_DELAY <= retry.delay <= MAX_DELAY
  }

  /** No timer to come has the id of the one held. */
  ghost predicate HeldIsOld(s: State) {
    s.retry.held.Some? ==> s.retry.held.value.id < s.nextId
  }

  ghost predicate WatchOk(watch: Watch) {
    watch.pending == if watch.held.Some? then {watch.held.value} else {}
  }

  /** Everything sent is on the wire or still queued, in order, and an open socket leaves no queue. */
  ghost predicate InOrder(s: State, sent: seq<WsMessage>) {
    && sent == s.mail.transmitted + s.mail.queue
    && (Ready(s.link) == OPEN ==> s.mail.queue == [])
  }

  /** Whatever the transport does, each message sent is in exactly one of three places. */
  ghost predicate Conserved(mail: Mail, sent: seq<WsMessage>) {
    multiset(sent) == multiset(mail.transmitted) + multiset(mail.queue) + multiset(mail.lost)
  }

  ghost predicate Inv(s: State, sent: seq<WsMessage>, firings: nat) {
    && LinkOk(s.link)
    && RetryOk(s.retry)
    && WatchOk(s.watch)
    && s.retry.delay == Backoff(firings)
    && HeldIsOld(s)
    && Conserved(s.mail, sent)
    && (!s.mail.refused ==> InOrder(s, sent))
  }

  lemma BackoffDoubles(k: nat)
    ensures Backoff(k + 1) == Doubled(Backoff(k))
    ensures INITIAL_DELAY <= Backoff(k) <= MAX_DELAY
  {
    PowPositive(k);
  }

  lemma {:induction false} PowPositive(k: nat)
    ensures Pow2(k) >= 1
  {
    if k == 0 {
    } else {
      PowPositive(k - 1);
    }
  }

  /** A socket that connecting again would not replace. */
  predicate InUse(r: ReadyState) {
    r in {CONNECTING, OPEN}
  }

  // ---------- Each operation ----------

  /** Nothing but a send, a flush or a disconnect touches the mail or opens a socket. */
  ghost predicate MailAside(s: State, t: State) {
    && t.mail == s.mail
    && (Ready(t.link) == OPEN ==> Ready(s.link) == OPEN)
    && t.retry.delay == s.retry.delay
  }

  lemma ChallengeKeeps(s: State)
    requires LinkOk(s.link) && RetryOk(s.retry) && HeldIsOld(s)
    ensures var t := ChallengeAuth(s);
      LinkOk(t.link) && RetryOk(t.retry) && HeldIsOld(t) && t.watch == s.watch && MailAside(s, t)
  {
  }

  lemma ConnectKeeps(s: State, env: Env)
    requires LinkOk(s.link) && RetryOk(s.retry) && HeldIsOld(s)
    ensures var t := Connect(s, env);
      LinkOk(t.link) && RetryOk(t.retry) && HeldIsOld(t) && t.watch == s.watch && MailAside(s, t)
  {
  }

  /** A message queued, because no socket was open or because the open one threw. */
  lemma QueuedKeeps(s: State, message: WsMessage, threw: bool, sent: seq<WsMessage>, firings: nat)
    requires Inv(s, sent, firings) && (Ready(s.link) == OPEN ==> threw)
    ensures var mail := s.mail.(queue := s.mail.queue + [message], refused := s.mail.refused || threw);
      Inv(s.(mail := mail), sent + [message], firings)
  {
    assert s.mail.transmitted + (s.mail.queue + [message]) == (s.mail.transmitted + s.mail.queue) + [message];
  }

  lemma SendKeeps(s: State, message: WsMessage, env: Env, sent: seq<WsMessage>, firings: nat)
    requires Inv(s, sent, firings)
    ensures Inv(Send(s, message, env), sent + [message], firings)
  {
    var ready := Ready(s.link);
    if ready == OPEN && env.capacity > 0 {
      if !s.mail.refused { assert s.mail.transmitted + [message] + [] == sent + [message]; }
    } else {
      var t := s.(mail := s.mail.(queue := s.mail.queue + [message], refused := s.mail.refused || ready == OPEN));
      QueuedKeeps(s, message, ready == OPEN, sent, firings);
      if ready == CLOSED { ConnectKeeps(t, env); }
    }
  }

  lemma FlushKeeps(mail: Mail, capacity: nat, sent: seq<WsMessage>)
    requires Conserved(mail, sent)
    requires !mail.refused ==> sent == mail.transmitted + mail.queue
    ensures var t := FlushQueue(mail, capacity);
      && Conserved(t, sent)
      && t.refused == (mail.refused || capacity < |mail.queue|)
      && (!t.refused ==> sent == t.transmitted + t.queue && t.queue == [])
  {
    if capacity < |mail.queue| {
      var q := mail.queue;
      assert q == q[..capacity] + ([q[capacity]] + q[capacity + 1..]);
      assert multiset(q) == multiset(q[..capacity]) + (multiset([q[capacity]]) + multiset(q[capacity + 1..]));
    }
  }

  lemma DisconnectKeeps(s: State, sent: seq<WsMessage>, firings: nat)
    requires Inv(s, sent, firings)
    ensures Inv(Disconnect(s), [], firings)
  {
  }

  lemma OpenKeeps(s: State, i: nat, env: Env, sent: seq<WsMessage>, firings: nat)
    requires Inv(s, sent, firings) && i < |s.link.sockets|
    ensures Inv(OnOpen(s, i, env), sent, 0)
  {
    FlushKeeps(s.mail, env.capacity, sent);
    assert Backoff(0) == INITIAL_DELAY;
  }

  /** A close before what it leads to. */
  lemma ClosedKeeps(s: State, i: nat, sent: seq<WsMessage>, firings: nat)
    requires Inv(s, sent, firings) && i < |s.link.sockets|
    ensures var link := Link(None, s.link.sockets[i := CLOSED], s.link.state);
      Inv(s.(link := link, watch := StopDeadCheck(s.watch)), sent, firings)
  {
  }

  lemma CloseKeeps(s: State, i: nat, policyViolation: bool, sent: seq<WsMessage>, firings: nat)
    requires Inv(s, sent, firings) && i < |s.link.sockets|
    ensures Inv(OnClose(s, i, policyViolation), sent, firings)
  {
  }

  lemma TimerKeeps(s: State, timer: Timer, env: Env, sent: seq<WsMessage>, firings: nat)
    requires Inv(s, sent, firings) && timer in s.retry.pending
    ensures Inv(OnReconnectTimer(s, timer, env), sent, firings + 1)
  {
    BackoffDoubles(firings);
    BackoffDoubles(firings + 1);
    var t := s.(retry := Retry(None, s.retry.pending - {timer}, Doubled(s.retry.delay), s.retry.wanted));
    assert t.retry.pending == {};
    ConnectKeeps(t, env);
  }

  lemma StepKeeps(s: State, e: Event, sent: seq<WsMessage>, firings: nat)
    requires Inv(s, sent, firings) && Enabled(s, e)
    ensures Inv(Step(s, e), Accept(sent, e), CountFiring(firings, e))
  {
    match e
    case CallConnect(env) => ConnectKeeps(s, env);
    case CallSend(message, env) => SendKeeps(s, message, env, sent, firings);
    case CallDisconnect => DisconnectKeeps(s, sent, firings);
    case CallReconnect(env) =>
      DisconnectKeeps(s, sent, firings);
      var t := Disconnect(s);
      ConnectKeeps(t.(retry := t.retry.(wanted := true, delay := INITIAL_DELAY)), env);
    case SocketOpened(i, env) => OpenKeeps(s, i, env, sent, firings);
    case SocketPinged(_, pong, env) => SendKeeps(s, pong, env, sent, firings);
    case SocketAuthExpired(_) => ChallengeKeeps(s);
    case SocketClosed(i, policyViolation) => CloseKeeps(s, i, policyViolation, sent, firings);
    case TimerFired(timer, env) => TimerKeeps(s, timer, env, sent, firings);
    case AuthSettled(recovered) => ChallengeKeeps(s.(auth := Auth(false, false)));
    case _ =>
  }

  /** The same of the state that an event has led to. */
  lemma StepLeads(s: State, e: Event, t: State, sent: seq<WsMessage>, firings: nat)
    requires Inv(s, sent, firings) && Enabled(s, e) && t == Step(s, e)
    ensures Inv(t, Accept(sent, e), CountFiring(firings, e))
  {
    StepKeeps(s, e, sent, firings);
  }

  lemma StartsValid()
    ensures Inv(INITIAL, [], 0)
  {
    assert Backoff(0) == INITIAL_DELAY;
  }

  lemma ChallengeStep(s: State, sent: seq<WsMessage>, firings: nat)
    requires Inv(s, sent, firings)
    ensures Inv(ChallengeAuth(s), sent, firings)
  {
    ChallengeKeeps(s);
  }

  /** A reconnect between its disconnect and its connect. */
  lemma FreshRetry(s: State, sent: seq<WsMessage>, firings: nat)
    requires Inv(s, sent, firings)
    ensures Inv(s.(retry := s.retry.(wanted := true, delay := INITIAL_DELAY)), sent, 0)
  {
    assert Backoff(0) == INITIAL_DELAY;
  }

  /** A reconnect timer's callback before it connects. */
  lemma FiredRetry(s: State, timer: Timer, sent: seq<WsMessage>, firings: nat)
    requires Inv(s, sent, firings) && timer in s.retry.pending
    ensures var retry := Retry(None, s.retry.pending - {timer}, Doubled(s.retry.delay), s.retry.wanted);
      Inv(s.(retry := retry), sent, firings + 1)
  {
    BackoffDoubles(firings);
    BackoffDoubles(firings + 1);
    assert s.retry.pending - {timer} == {};
  }

  // ---------- Over whole runs ----------

  lemma {:induction false} RunKeeps(run: seq<Event>)
    requires IsRun(INITIAL, run)
    ensures Inv(After(INITIAL, run), Sent(run), Firings(run))
  {
    if run == [] {
      StartsValid();
    } else {
      var init := run[..|run| - 1];
      RunKeeps(init);
      StepKeeps(After(INITIAL, init), run[|run| - 1], Sent(init), Firings(init));
    }
  }

  /** Delivery: as long as open sockets take what they are given, the wire and the queue make up what was sent. */
  lemma DeliveredInOrder(run: seq<Event>)
    requires IsRun(INITIAL, run)
    ensures var s := After(INITIAL, run);
      && (!s.mail.refused ==>
            Sent(run) == s.mail.transmitted + s.mail.queue && (Ready(s.link) == OPEN ==> s.mail.queue == []))
      && multiset(Sent(run)) == multiset(s.mail.transmitted) + multiset(s.mail.queue) + multiset(s.mail.lost)
  {
    RunKeeps(run);
  }

  /** Backoff: one timer at most, the delay min(500 * 2^k, 8000) after k firings, and no closed socket held. */
  lemma BackoffOverRuns(run: seq<Event>)
    requires IsRun(INITIAL, run)
    ensures var s := After(INITIAL, run);
      && s.retry.delay == Backoff(Firings(run))
      && |s.retry.pending| <= 1 && |s.watch.pending| <= 1
      && (s.retry.pending != {} ==> s.retry.wanted)
      && (s.link.socket.Some? ==> Ready(s.link) != CLOSED)
  {
    RunKeeps(run);
  }

  /** The event makes a send on an open socket throw. */
  predicate Refuses(s: State, e: Event)
    requires Enabled(s, e)
  {
    match e
    case CallSend(_, env) => Ready(s.link) == OPEN && env.capacity == 0
    case SocketPinged(_, _, env) => Ready(s.link) == OPEN && env.capacity == 0
    case SocketOpened(i, env) =>
      && Ready(s.link.(sockets := s.link.sockets[i := OPEN])) == OPEN
      && env.capacity < |s.mail.queue|
    case _ => false
  }

  /** Order survives an event exactly when no send on an open socket throws during it. */
  lemma OrderKeptIff(s: State, e: Event, sent: seq<WsMessage>, firings: nat)
    requires Inv(s, sent, firings) && Enabled(s, e) && !s.mail.refused
    ensures InOrder(Step(s, e), Accept(sent, e)) <==> !Refuses(s, e)
  {
    StepKeeps(s, e, sent, firings);
    var t := Step(s, e);
    if Refuses(s, e) && e.SocketOpened? {
      assert |t.mail.transmitted| + |t.mail.queue| == |sent| - 1;
    } else if !Refuses(s, e) {
      NoRefusal(s, e);
    }
  }

  lemma NoRefusal(s: State, e: Event)
    requires Enabled(s, e) && !s.mail.refused && !Refuses(s, e)
    ensures !Step(s, e).mail.refused
  {
  }

  /** At every moment of the run, everything sent is on the wire or still queued, in order. */
  ghost predicate AlwaysInOrder(run: seq<Event>)
    requires IsRun(INITIAL, run)
  {
    InOrder(After(INITIAL, run), Sent(run)) && (run == [] || AlwaysInOrder(run[..|run| - 1]))
  }

  predicate NeverRefused(run: seq<Event>)
    requires IsRun(INITIAL, run)
  {
    run == [] ||
    (NeverRefused(run[..|run| - 1]) && !Refuses(After(INITIAL, run[..|run| - 1]), run[|run| - 1]))
  }

  lemma {:induction false} NeverRefusedIsNotRefused(run: seq<Event>)
    requires IsRun(INITIAL, run) && NeverRefused(run)
    ensures !After(INITIAL, run).mail.refused
  {
    if run == [] {
    } else {
      NeverRefusedIsNotRefused(run[..|run| - 1]);
      NoRefusal(After(INITIAL, run[..|run| - 1]), run[|run| - 1]);
    }
  }

  /** Over a whole run, order is kept at every moment exactly when no send on an open socket ever throws. */
  lemma {:induction false} AlwaysInOrderIff(run: seq<Event>)
    requires IsRun(INITIAL, run)
    ensures AlwaysInOrder(run) <==> NeverRefused(run)
  {
    if run == [] {
    } else {
      var init := run[..|run| - 1];
      AlwaysInOrderIff(init);
      RunKeeps(init);
      if NeverRefused(init) {
        NeverRefusedIsNotRefused(init);
        OrderKeptIff(After(INITIAL, init), run[|run| - 1], Sent(init), Firings(init));
      }
    }
  }

  // ---------- One live socket ----------

  /** No socket that is connecting or open has been forgotten. */
  ghost predicate SoleLive(link: Link) {
    forall i :: 0 <= i < |link.sockets| && InUse(link.sockets[i]) ==> link.socket == Some(i)
  }

  /** The event concerns a socket other than the one held: a late close, or an open that overtook a close call. */
  predicate Stale(s: State, e: Event) {
    match e
    case SocketClosed(i, _) => InUse(Ready(s.link)) && s.link.socket != Some(i)
    case SocketOpened(i, _) => s.link.socket != Some(i)
    case _ => false
  }

  lemma ConnectStaysSole(s: State, env: Env)
    requires SoleLive(s.link) && LinkOk(s.link)
    ensures SoleLive(Connect(s, env).link)
  {
  }

  lemma DisconnectStaysSole(s: State)
    requires SoleLive(s.link) && LinkOk(s.link)
    ensures SoleLive(Disconnect(s).link) && LinkOk(Disconnect(s).link)
  {
  }

  lemma OpenStaysSoleIff(s: State, i: nat, env: Env)
    requires SoleLive(s.link) && LinkOk(s.link) && i < |s.link.sockets|
    ensures SoleLive(OnOpen(s, i, env).link) <==> s.link.socket == Some(i)
  {
    var t := OnOpen(s, i, env).link;
    assert t.sockets[i] == OPEN && t.socket == s.link.socket;
    assert forall j :: 0 <= j < |t.sockets| && j != i ==> t.sockets[j] == s.link.sockets[j];
  }

  lemma CloseStaysSoleIff(s: State, i: nat, policyViolation: bool)
    requires SoleLive(s.link) && LinkOk(s.link) && i < |s.link.sockets| && s.link.sockets[i] != CLOSED
    ensures SoleLive(OnClose(s, i, policyViolation).link) <==> !(InUse(Ready(s.link)) && s.link.socket != Some(i))
  {
    var t := OnClose(s, i, policyViolation).link;
    assert t.socket.None? && t.sockets == s.link.sockets[i := CLOSED];
    if InUse(Ready(s.link)) && s.link.socket != Some(i) {
      assert InUse(t.sockets[s.link.socket.value]);
    } else {
      assert forall j :: 0 <= j < |t.sockets| && j != i ==> t.sockets[j] == s.link.sockets[j];
    }
  }

  /** The handlers never check which socket they serve: a stale event is exactly what loses a live one. */
  lemma SoleLiveKeptIff(s: State, e: Event)
    requires SoleLive(s.link) && LinkOk(s.link) && Enabled(s, e)
    ensures SoleLive(Step(s, e).link) <==> !Stale(s, e)
  {
    match e
    case CallConnect(env) => ConnectStaysSole(s, env);
    case CallSend(message, env) => SendStaysSole(s, message, env);
    case CallDisconnect => DisconnectStaysSole(s);
    case CallReconnect(env) => ReconnectStaysSole(s, env);
    case SocketOpened(i, env) => OpenStaysSoleIff(s, i, env);
    case SocketPinged(_, pong, env) => SendStaysSole(s, pong, env);
    case SocketClosed(i, policyViolation) => CloseStaysSoleIff(s, i, policyViolation);
    case TimerFired(timer, env) => TimerStaysSole(s, timer, env);
    case _ => CalmStaysSole(s, e);
  }

  lemma SendStaysSole(s: State, message: WsMessage, env: Env)
    requires SoleLive(s.link) && LinkOk(s.link)
    ensures SoleLive(Send(s, message, env).link)
  {
    var mail := s.mail.(queue := s.mail.queue + [message], refused := s.mail.refused || Ready(s.link) == OPEN);
    ConnectStaysSole(s.(mail := mail), env);
  }

  lemma ReconnectStaysSole(s: State, env: Env)
    requires SoleLive(s.link) && LinkOk(s.link)
    ensures SoleLive(Reconnect(s, env).link)
  {
    DisconnectStaysSole(s);
    var t := Disconnect(s);
    ConnectStaysSole(t.(retry := t.retry.(wanted := true, delay := INITIAL_DELAY)), env);
  }

  lemma TimerStaysSole(s: State, timer: Timer, env: Env)
    requires SoleLive(s.link) && LinkOk(s.link)
    ensures SoleLive(OnReconnectTimer(s, timer, env).link)
  {
    var retry := Retry(None, s.retry.pending - {timer}, Doubled(s.retry.delay), s.retry.wanted);
    ConnectStaysSole(s.(retry := retry), env);
  }

  /** The other events at most begin to close the held socket. */
  lemma CalmStaysSole(s: State, e: Event)
    requires SoleLive(s.link) && LinkOk(s.link) && Enabled(s, e)
    requires e.CallConfigure? || e.CallUpdateToken? || e.CallSetAuthHandler? || e.SocketAuthExpired?
      || e.SocketFailed? || e.DeadCheckFired? || e.AuthSettled?
    ensures SoleLive(Step(s, e).link) && !Stale(s, e)
  {
  }

  /**
   * One reconnect is enough for that: it closes the old socket and holds a new one at once, and when the old one
   * reports its close the service lets go of the new one, still live, and schedules yet another.
   */
  lemma ReconnectLosesItsSocket(s: State, env: Env)
    requires LinkOk(s.link) && InUse(Ready(s.link))
    requires s.config.host != "" && s.config.port != "" && !env.expired && env.constructs
    ensures var first, second := s.link.socket.value, |s.link.sockets|;
      var t := Reconnect(s, env);
      && t.link.socket == Some(second) && Enabled(t, SocketClosed(first, false))
      && var u := Step(t, SocketClosed(first, false));
        u.link.socket.None? && u.link.sockets[second] == CONNECTING && u.retry.held.Some?
  {
  }

  /** At every moment of the run, no live socket was forgotten. */
  ghost predicate AlwaysSole(s: State, run: seq<Event>)
    requires IsRun(s, run)
  {
    SoleLive(After(s, run).link) && (run == [] || AlwaysSole(s, run[..|run| - 1]))
  }

  predicate NeverStale(s: State, run: seq<Event>)
    requires IsRun(s, run)
  {
    run == [] || (NeverStale(s, run[..|run| - 1]) && !Stale(After(s, run[..|run| - 1]), run[|run| - 1]))
  }

  /** Over a whole run the held socket is the only live one exactly when no event was stale at its moment. */
  lemma {:induction false} AlwaysSoleIff(run: seq<Event>)
    requires IsRun(INITIAL, run)
    ensures AlwaysSole(INITIAL, run) <==> NeverStale(INITIAL, run)
  {
    if run == [] {
    } else {
      var init := run[..|run| - 1];
      AlwaysSoleIff(init);
      RunKeeps(init);
      if AlwaysSole(INITIAL, init) {
        SoleNow(init);
        SoleLiveKeptIff(After(INITIAL, init), run[|run| - 1]);
      }
    }
  }

  lemma SoleNow(run: seq<Event>)
    requires IsRun(INITIAL, run) && AlwaysSole(INITIAL, run)
    ensures SoleLive(After(INITIAL, run).link)
  {
  }

  // ---------- Disconnected stays disconnected ----------

  /** Disconnected: no socket held, no timer held or pending, and no wish to reconnect. */
  ghost predicate Quiet(s: State) {
    && s.link.socket.None?
    && s.retry.held.None? && s.retry.pending == {} && !s.retry.wanted
  }

  lemma DisconnectIsQuiet(s: State, sent: seq<WsMessage>, firings: nat)
    requires Inv(s, sent, firings)
    ensures Quiet(Disconnect(s)) && Disconnect(s).mail.queue == []
  {
  }

  predicate CanConnect(s: State, env: Env) {
    s.config.host != "" && s.config.port != "" && !env.expired
  }

  /**
   * The event revives a disconnected service: a call that connects, but also the answer to a heartbeat from a
   * socket still closing, while there is a server to reach and the token is valid. A reconnect call wishes to
   * reconnect in any case but one: the token has expired and nobody handles that.
   */
  predicate Revives(s: State, e: Event) {
    match e
    case CallConnect(env) => CanConnect(s, env)
    case CallSend(_, env) => CanConnect(s, env)
    case SocketPinged(_, _, env) => CanConnect(s, env)
    case CallReconnect(env) =>
      s.config.host == "" || s.config.port == "" || !env.expired || s.auth.handling || s.auth.handler
    case _ => false
  }

  /** A disconnected service stays so exactly when the event does not revive it, and then makes no socket. */
  lemma QuietKeptIff(s: State, e: Event)
    requires Quiet(s) && Enabled(s, e)
    ensures Quiet(Step(s, e)) <==> !Revives(s, e)
    ensures !Revives(s, e) ==> |Step(s, e).link.sockets| == |s.link.sockets|
  {
  }

  /** At every moment of the run the service was disconnected. */
  ghost predicate AlwaysQuiet(s: State, run: seq<Event>)
    requires IsRun(s, run)
  {
    Quiet(After(s, run)) && (run == [] || AlwaysQuiet(s, run[..|run| - 1]))
  }

  predicate NeverRevived(s: State, run: seq<Event>)
    requires IsRun(s, run)
  {
    run == [] || (NeverRevived(s, run[..|run| - 1]) && !Revives(After(s, run[..|run| - 1]), run[|run| - 1]))
  }

  /** Over a whole run a disconnected service stays so exactly when no event revives it at its moment. */
  lemma {:induction false} AlwaysQuietIff(s: State, run: seq<Event>)
    requires Quiet(s) && IsRun(s, run)
    ensures AlwaysQuiet(s, run) <==> NeverRevived(s, run)
    ensures NeverRevived(s, run) ==> |After(s, run).link.sockets| == |s.link.sockets|
  {
    if run == [] {
    } else {
      var init := run[..|run| - 1];
      AlwaysQuietIff(s, init);
      if AlwaysQuiet(s, init) {
        QuietNow(s, init);
        QuietKeptIff(After(s, init), run[|run| - 1]);
      }
    }
  }

  lemma QuietNow(s: State, run: seq<Event>)
    requires IsRun(s, run) && AlwaysQuiet(s, run)
    ensures Quiet(After(s, run))
  {
  }

  /** An event the service did not ask for and that carries no server heartbeat. */
  predicate Unprompted(e: Event) {
    e.SocketOpened? || e.SocketAuthExpired? || e.SocketFailed? || e.SocketClosed? || e.TimerFired?
    || e.DeadCheckFired? || e.AuthSettled?
  }

  /** So no event without a heartbeat revives it, whatever is queued. */
  lemma {:induction false} QuietStaysQuiet(s: State, run: seq<Event>)
    requires Quiet(s) && IsRun(s, run)
    requires forall e :: e in run ==> Unprompted(e)
    ensures Quiet(After(s, run)) && |After(s, run).link.sockets| == |s.link.sockets|
  {
    if run == [] {
    } else {
      var init := run[..|run| - 1];
      assert run[|run| - 1] in run;
      forall e | e in init ensures e in run {}
      QuietStaysQuiet(s, init);
      QuietKeptIff(After(s, init), run[|run| - 1]);
    }
  }

  /**
   * A heartbeat makes a disconnected service open a socket, or schedule that when none can be constructed,
   * exactly when there is a server to reach and the token is valid.
   */
  lemma PingReconnectsIff(s: State, i: nat, pong: WsMessage, env: Env)
    requires Quiet(s) && Enabled(s, SocketPinged(i, pong, env))
    ensures var t := Step(s, SocketPinged(i, pong, env));
      && (|t.link.sockets| > |s.link.sockets| <==> CanConnect(s, env) && env.constructs)
      && (t.retry.pending != {} <==> CanConnect(s, env) && !env.constructs)
  {
  }
}
