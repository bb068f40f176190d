/** The connection manager itself: a mutable object whose every method refines the state machine. */
module WebSocketService {
  import opened Wrappers
  import M = WebSocketModel
  import T = WebSocketTheorems

  /**
   * The source's fields, grouped: socket and _state in link, messageQueue in mail, reconnectTimer,
   * reconnectDelay and shouldReconnect in retry, deadConnectionTimer in watch. Each group also
   * holds what the platform keeps for it: the sockets, the pending timeouts, the intervals.
   */
  class WebSocketService {
    var link: M.Link
    var mail: M.Mail
    var retry: M.Retry
    var watch: M.Watch
    var auth: M.Auth
    var config: M.Config
    var nextId: nat
    // What was sent since the last disconnect, and how often the reconnect timer has fired.
    ghost var sent: seq<M.WsMessage>
    ghost var firings: nat

    ghost function Snapshot(): M.State
      reads this
    {
      M.State(link, mail, retry, watch, auth, config, nextId)
    }

    /** Order, conservation, backoff and the single timer, as proved over every run. */
    ghost predicate Valid()
      reads this
    {
      T.Inv(Snapshot(), sent, firings)
    }

    /** The event's own effect on the two records. */
    twostate predicate Records(e: M.Event)
      reads this
    {
      sent == T.Accept(old(sent), e) && firings == T.CountFiring(old(firings), e)
    }

    constructor ()
      ensures Valid() && Snapshot() == M.INITIAL && sent == [] && firings == 0
    {
      link := M.Link(None, [], M.Disconnected);
      mail := M.Mail([], [], [], false);
      retry := M.Retry(None, {}, 500, true);
      watch := M.Watch(None, {});
      auth := M.Auth(false, false);
      config := M.Config("", "", "");
      nextId := 0;
      sent, firings := [], 0;
      T.StartsValid();
    }

    method Configure(host: string, port: string, token: string)
      requires Valid()
      modifies `config
      ensures Valid() && Snapshot() == M.Step(old(Snapshot()), M.CallConfigure(host, port, token))
    {
      config := M.Config(host, port, token);
    }

    method UpdateToken(token: string)
      requires Valid()
      modifies `config
      ensures Valid() && Snapshot() == M.Step(old(Snapshot()), M.CallUpdateToken(token))
    {
      config := config.(token := token);
    }

    method CloseSocket()
      modifies `link
      ensures link == M.CloseSocket(old(link))
    {
      if M.Live(M.Ready(link)) {
        link := link.(sockets := link.sockets[link.socket.value := M.CLOSING]);
      }
    }

    method ScheduleReconnect()
      modifies `retry, `nextId
      ensures Snapshot() == M.ScheduleReconnect(old(Snapshot()))
    {
      if retry.held != None || !retry.wanted { return; }
      var timer := M.Timer(nextId, retry.delay);
      nextId := nextId + 1;
      retry := retry.(held := Some(timer), pending := retry.pending + {timer});
    }

    method ClearReconnectTimer()
      modifies `retry
      ensures retry == M.ClearReconnectTimer(old(retry))
    {
      if retry.held != None {
        retry := retry.(held := None, pending := retry.pending - {retry.held.value});
      }
    }

    method StopDeadConnectionCheck()
      modifies `watch
      ensures watch == M.StopDeadCheck(old(watch))
    {
      if watch.held != None {
        watch := M.Watch(None, watch.pending - {watch.held.value});
      }
    }

    method StartDeadConnectionCheck()
      modifies `watch, `nextId
      ensures Snapshot() == M.StartDeadCheck(old(Snapshot()))
    {
      StopDeadConnectionCheck();
      watch := M.Watch(Some(nextId), watch.pending + {nextId});
      nextId := nextId + 1;
    }

    /** The part of handleAuthChallenge that runs once recovery has failed. */
    method FailAuth()
      modifies `link, `retry
      ensures Snapshot() == M.FailAuth(old(Snapshot()))
    {
      retry := retry.(wanted := false);
      ClearReconnectTimer();
      CloseSocket();
      link := link.(state := M.AuthFailed);
    }

    /** handleAuthChallenge as far as its await. */
    method HandleAuthChallenge()
      requires Valid()
      modifies `auth, `link, `retry
      ensures Valid() && Snapshot() == M.ChallengeAuth(old(Snapshot()))
    {
      T.ChallengeStep(Snapshot(), sent, firings);
      if auth.handling { return; }
      auth := auth.(handling := true);
      if auth.handler { return; }
      auth := auth.(handling := false);
      FailAuth();
    }

    /** handleAuthChallenge after its await. */
    method SettleAuthChallenge(recovered: bool)
      requires Valid() && M.Enabled(Snapshot(), M.AuthSettled(recovered))
      modifies `auth, `link, `retry
      ensures Valid() && Snapshot() == M.OnAuthSettled(old(Snapshot()), recovered)
    {
      T.StepKeeps(Snapshot(), M.AuthSettled(recovered), sent, firings);
      auth := auth.(handling := false);
      if recovered { return; }
      FailAuth();
    }

    method Connect(env: M.Env)
      requires Valid()
      modifies this
      ensures Valid() && Snapshot() == M.Connect(old(Snapshot()), env) && Records(M.CallConnect(env))
    {
      T.StepKeeps(Snapshot(), M.CallConnect(env), sent, firings);
      if M.Live(M.Ready(link)) { return; }
      if config.host == "" || config.port == "" {
        link := link.(state := M.Disconnected);
        return;
      }
      if env.expired {
        HandleAuthChallenge();
        return;
      }
      retry := retry.(wanted := true);
      link := link.(state := M.Connecting);
      if !env.constructs {
        ScheduleReconnect();
        return;
      }
      link := link.(socket := Some(|link.sockets|), sockets := link.sockets + [M.CONNECTING]);
    }

    method Disconnect()
      requires Valid()
      modifies this
      ensures Valid() && Snapshot() == M.Disconnect(old(Snapshot())) && Records(M.CallDisconnect)
    {
      T.StepKeeps(Snapshot(), M.CallDisconnect, sent, firings);
      sent := [];
      retry := retry.(wanted := false);
      ClearReconnectTimer();
      StopDeadConnectionCheck();
      mail := M.Mail([], [], [], false);
      CloseSocket();
      link := link.(socket := None);
      link := link.(state := M.Disconnected);
    }

    method Reconnect(env: M.Env)
      requires Valid()
      modifies this
      ensures Valid() && Snapshot() == M.Reconnect(old(Snapshot()), env) && Records(M.CallReconnect(env))
    {
      Disconnect();
      T.FreshRetry(Snapshot(), sent, firings);
      retry := retry.(wanted := true);
      retry := retry.(delay := 500);
      firings := 0;
      Connect(env);
    }

    method Send(message: M.WsMessage, env: M.Env)
      requires Valid()
      modifies this
      ensures Valid() && Snapshot() == M.Send(old(Snapshot()), message, env) && Records(M.CallSend(message, env))
    {
      sent := sent + [message];
      if M.Ready(link) == M.OPEN {
        if env.capacity > 0 {
          mail := mail.(transmitted := mail.transmitted + [message]);
          T.SendKeeps(old(Snapshot()), message, env, old(sent), firings);
          return;
        }
        mail := mail.(refused := true);
      }
      T.QueuedKeeps(old(Snapshot()), message, M.Ready(link) == M.OPEN, old(sent), firings);
      mail := mail.(queue := mail.queue + [message]);
      if M.Ready(link) == M.CLOSED {
        Connect(env);
      }
    }

    /** Sends the queue out in order; the send after the capacity-th throws and ends the loop. */
    method FlushQueue(capacity: nat)
      modifies `mail
      ensures mail == if M.Ready(link) == M.OPEN then M.FlushQueue(old(mail), capacity) else old(mail)
    {
      if M.Ready(link) != M.OPEN { return; }
      var k := 0;
      while |mail.queue| > 0
        invariant k <= capacity && k <= |old(mail.queue)|
        invariant mail.queue == old(mail.queue)[k..]
        invariant mail.transmitted == old(mail.transmitted) + old(mail.queue)[..k]
        invariant mail.lost == old(mail.lost) && mail.refused == old(mail.refused)
        decreases |mail.queue|
      {
        var message := mail.queue[0];
        mail := mail.(queue := mail.queue[1..]);
        if k == capacity {
          mail := mail.(lost := mail.lost + [message], refused := true);
          return;
        }
        mail := mail.(transmitted := mail.transmitted + [message]);
        k := k + 1;
      }
    }

    /** What onopen does to the fields. */
    method Opened(i: nat, env: M.Env)
      requires M.Enabled(Snapshot(), M.SocketOpened(i, env))
      modifies `link, `retry, `watch, `nextId, `mail
      ensures Snapshot() == M.OnOpen(old(Snapshot()), i, env)
    {
      link := link.(sockets := link.sockets[i := M.OPEN]);
      retry := retry.(delay := 500);
      StartDeadConnectionCheck();
      link := link.(state := M.Connected);
      FlushQueue(env.capacity);
    }

    /** onopen of the i-th socket. */
    method OnOpen(i: nat, env: M.Env)
      requires Valid() && M.Enabled(Snapshot(), M.SocketOpened(i, env))
      modifies this
      ensures Valid() && Snapshot() == M.Step(old(Snapshot()), M.SocketOpened(i, env))
      ensures Records(M.SocketOpened(i, env))
    {
      T.StepKeeps(Snapshot(), M.SocketOpened(i, env), sent, firings);
      Opened(i, env);
      firings := 0;
    }

    /** onclose of the i-th socket, which need not be the one held. */
    method OnClose(i: nat, policyViolation: bool)
      requires Valid() && M.Enabled(Snapshot(), M.SocketClosed(i, policyViolation))
      modifies this
      ensures Valid() && Snapshot() == M.Step(old(Snapshot()), M.SocketClosed(i, policyViolation))
      ensures Records(M.SocketClosed(i, policyViolation))
    {
      link := link.(sockets := link.sockets[i := M.CLOSED]);
      link := link.(socket := None);
      StopDeadConnectionCheck();
      if policyViolation {
        T.ClosedKeeps(old(Snapshot()), i, sent, firings);
        HandleAuthChallenge();
        return;
      }
      if retry.wanted {
        link := link.(state := M.Disconnected);
        ScheduleReconnect();
      }
      assert Snapshot() == M.OnClose(old(Snapshot()), i, false);
      T.StepLeads(old(Snapshot()), M.SocketClosed(i, false), Snapshot(), sent, firings);
    }

    /** The callback of a reconnect timeout. */
    method FireReconnectTimer(timer: M.Timer, env: M.Env)
      requires Valid() && M.Enabled(Snapshot(), M.TimerFired(timer, env))
      modifies this
      ensures Valid() && Snapshot() == M.Step(old(Snapshot()), M.TimerFired(timer, env))
      ensures Records(M.TimerFired(timer, env))
    {
      T.FiredRetry(Snapshot(), timer, sent, firings);
      firings := firings + 1;
      retry := retry.(held := None, pending := retry.pending - {timer});
      retry := retry.(delay := if retry.delay * 2 < 8000 then retry.delay * 2 else 8000);
      Connect(env);
    }

    /** The callback of the dead-connection interval. */
    method FireDeadCheck(id: nat, stale: bool)
      requires Valid() && M.Enabled(Snapshot(), M.DeadCheckFired(id, stale))
      modifies `link
      ensures Valid() && Snapshot() == M.Step(old(Snapshot()), M.DeadCheckFired(id, stale))
    {
      T.StepKeeps(Snapshot(), M.DeadCheckFired(id, stale), sent, firings);
      if stale { CloseSocket(); }
    }
  }
}
