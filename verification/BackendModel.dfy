/**
 * The backend process manager as a state machine. Each await of the source is a phase that a
 * later event resumes: a start in flight, a pending crash restart, a late health poller, a stop.
 */
module BackendModel {
  import opened Numbers
  import opened Wrappers

  const PEER_RETRY_MAX_ATTEMPTS: nat := 5
  const MAX_RESTARTS: nat := 3
  const RESTART_WINDOW_MS: int := 60000

  datatype Status = Stopped | Starting | Running | Failed

  /** Where start() is suspended; a pid is the process that this attempt spawned. */
  datatype Phase = Retrying | AwaitingPort(pid: nat) | AwaitingHealth(pid: nat) | Killing(pid: nat)

  /** A start() in flight: which attempt of its retry loop, and whether a crash restart called it. */
  datatype Flight = Flight(attempt: nat, restart: bool, phase: Phase)

  /** The manager's own fields; keepsPending is allowPendingOnHealthTimeout of the last options. */
  datatype Manager = Manager(
    status: Status, child: Option<nat>, restartCount: nat, windowStart: int, keepsPending: bool)

  /** What is suspended: a start, crash-restart timeouts by delay, health pollers by pid, stops. */
  datatype Runtime = Runtime(flight: Option<Flight>, timers: seq<nat>, pollers: set<nat>, stops: nat)

  /**
   * The operating system: processes running, those that exited before their start was settled
   * (true if the manager was stopped then) and have not closed, and how many were ever spawned.
   */
  datatype Processes = Processes(alive: set<nat>, exits: map<nat, bool>, spawned: nat)

  datatype State = State(m: Manager, r: Runtime, os: Processes)

  const INITIAL: State := State(
    Manager(Stopped, None, 0, 0, false), Runtime(None, [], {}, 0), Processes({}, map[], 0))

  /** How the synchronous part of one attempt ends. */
  datatype Outcome = ResolveFails | PrepareFails | SpawnThrows | Spawned

  // ---------- Operations ----------

  function SetStatus(s: State, status: Status): State {
    s.(m := s.m.(status := status))
  }

  /** An attempt is rejected: retried when a peer owns the data directory, else start() rejects. */
  function Reject(s: State, f: Flight, peer: bool): State {
    if peer && f.attempt + 1 < PEER_RETRY_MAX_ATTEMPTS then
      s.(r := s.r.(flight := Some(f.(phase := Retrying))))
    else
      var t := s.(r := s.r.(flight := None));
      if f.restart then SetStatus(t, Failed) else t
  }

  function AttemptStart(s: State, attempt: nat, restart: bool, keepsPending: bool, outcome: Outcome): State {
    var f := Flight(attempt, restart, AwaitingPort(s.os.spawned));
    var t := s.(m := s.m.(status := Starting, keepsPending := keepsPending));
    match outcome
    case ResolveFails => Reject(s, f, false)  // before anything is recorded
    case Spawned =>
      State(t.m.(child := Some(s.os.spawned)),
            t.r.(flight := Some(f)),
            s.os.(alive := s.os.alive + {s.os.spawned}, spawned := s.os.spawned + 1))
    case _ => Reject(SetStatus(t, Failed), f, false)
  }

  function HandleCrash(s: State, now: int): State {
    var lapsed := now - s.m.windowStart > RESTART_WINDOW_MS;
    var count := if lapsed then 1 else s.m.restartCount + 1;
    var t := s.(m := s.m.(restartCount := count, windowStart := if lapsed then now else s.m.windowStart));
    if count > MAX_RESTARTS then SetStatus(t, Failed)
    else t.(r := t.r.(timers := t.r.timers + [Pow2(count - 1) * 1000]))
  }

  predicate Awaits(s: State, pid: nat) {
    s.r.flight.Some? && s.r.flight.value.phase in {AwaitingPort(pid), AwaitingHealth(pid)}
  }

  function OnExit(s: State, pid: nat, now: int): State {
    var t := s.(os := s.os.(alive := s.os.alive - {pid}));
    if s.m.status == Running then HandleCrash(t, now)
    else
      var u := if Awaits(s, pid) then
        t.(os := t.os.(exits := t.os.exits[pid := s.m.status == Stopped])) else t;
      if s.m.status == Stopped then u else SetStatus(u, Failed)
  }

  function OnClose(s: State, pid: nat, peer: bool): State
    requires pid in s.os.exits
  {
    var t := s.(os := s.os.(exits := s.os.exits - {pid}));
    if Awaits(s, pid) then Reject(t, s.r.flight.value, peer && !s.os.exits[pid]) else t
  }

  function BecomeReady(s: State): State {
    s.(m := s.m.(status := Running, restartCount := 0))
  }

  function OnHealthTimeout(s: State, f: Flight, pid: nat): State {
    if s.m.keepsPending && s.m.child.Some? then
      s.(r := s.r.(flight := None, pollers := s.r.pollers + {s.m.child.value}))
    else s.(r := s.r.(flight := Some(f.(phase := Killing(pid)))))
  }

  function OnKilled(s: State, f: Flight, peer: bool): State {
    Reject(s.(m := s.m.(child := None, status := Failed)), f, peer)
  }

  function OnRestartTimer(s: State, i: nat, outcome: Outcome): State
    requires i < |s.r.timers|
  {
    var t := s.(r := s.r.(timers := s.r.timers[..i] + s.r.timers[i + 1..]));
    if s.m.status == Stopped then t
    else AttemptStart(SetStatus(t, Starting), 0, true, s.m.keepsPending, outcome)
  }

  /** The poller's own test, made again once its health check has passed. */
  predicate StillPending(s: State, pid: nat) {
    s.m.child == Some(pid) && s.m.status == Starting
  }

  function OnLateHealth(s: State, pid: nat): State {
    var t := s.(r := s.r.(pollers := s.r.pollers - {pid}));
    if StillPending(s, pid) then BecomeReady(t) else t
  }

  function Stop(s: State): State {
    if s.m.child.None? then s
    else SetStatus(s.(r := s.r.(stops := s.r.stops + 1)), Stopped)
  }

  function OnStopped(s: State): State
    requires s.r.stops > 0
  {
    s.(m := s.m.(child := None), r := s.r.(stops := s.r.stops - 1))
  }

  // ---------- Events and runs ----------

  datatype Event =
    | StartCalled(keepsPending: bool, outcome: Outcome)
    | StopCalled
    | RetryDue(outcome: Outcome)
    | PortReported
    | PortTimedOut
    | HealthPassed
    | HealthTimedOut
    | KillSettled(peer: bool)
    | SpawnErrored(gone: bool)
    | Exited(pid: nat, now: int)
    | Closed(pid: nat, peer: bool)
    | RestartDue(i: nat, outcome: Outcome)
    | LateHealth(pid: nat)
    | PollerEnded(pid: nat)
    | StopSettled

  /** What can happen next, with one start in flight at a time. */
  predicate Enabled(s: State, e: Event) {
    match e
    case StartCalled(_, _) => s.r.flight.None?
    case StopCalled => true
    case RetryDue(_) => s.r.flight.Some? && s.r.flight.value.phase.Retrying?
    case PortReported => s.r.flight.Some? && s.r.flight.value.phase.AwaitingPort?
    case PortTimedOut => s.r.flight.Some? && s.r.flight.value.phase.AwaitingPort?
    case HealthPassed => s.r.flight.Some? && s.r.flight.value.phase.AwaitingHealth?
    case HealthTimedOut => s.r.flight.Some? && s.r.flight.value.phase.AwaitingHealth?
    case KillSettled(_) => s.r.flight.Some? && s.r.flight.value.phase.Killing?
    case SpawnErrored(_) =>
      s.r.flight.Some? && (s.r.flight.value.phase.AwaitingPort? || s.r.flight.value.phase.AwaitingHealth?)
    case Exited(pid, _) => pid in s.os.alive
    case Closed(pid, _) => pid in s.os.exits
    case RestartDue(i, _) => i < |s.r.timers| && s.r.flight.None?
    case LateHealth(pid) => pid in s.r.pollers
    case PollerEnded(pid) => pid in s.r.pollers && !StillPending(s, pid)
    case StopSettled => s.r.stops > 0
  }

  function Step(s: State, e: Event): State
    requires Enabled(s, e)
  {
    match e
    case StartCalled(keepsPending, outcome) => AttemptStart(s, 0, false, keepsPending, outcome)
    case StopCalled => Stop(s)
    case RetryDue(outcome) =>
      var f := s.r.flight.value;
      AttemptStart(s, f.attempt + 1, f.restart, s.m.keepsPending, outcome)
    case PortReported =>
      var f := s.r.flight.value;
      s.(r := s.r.(flight := Some(f.(phase := AwaitingHealth(f.phase.pid)))))
    case PortTimedOut =>
      var f := s.r.flight.value;
      s.(r := s.r.(flight := Some(f.(phase := Killing(f.phase.pid)))))
    case HealthPassed => BecomeReady(s.(r := s.r.(flight := None)))
    case HealthTimedOut => OnHealthTimeout(s, s.r.flight.value, s.r.flight.value.phase.pid)
    case KillSettled(peer) => OnKilled(s, s.r.flight.value, peer)
    case SpawnErrored(gone) =>
      var f := s.r.flight.value;
      var alive := if gone then s.os.alive - {f.phase.pid} else s.os.alive;
      Reject(SetStatus(s.(os := s.os.(alive := alive)), Failed), f, false)
    case Exited(pid, now) => OnExit(s, pid, now)
    case Closed(pid, peer) => OnClose(s, pid, peer)
    case RestartDue(i, outcome) => OnRestartTimer(s, i, outcome)
    case LateHealth(pid) => OnLateHealth(s, pid)
    case PollerEnded(pid) => s.(r := s.r.(pollers := s.r.pollers - {pid}))
    case StopSettled => OnStopped(s)
  }

  /**
   * An orderly caller calls start() when nothing of the manager's is running or pending, and does not
   * call stop() while a start() is in flight. One child at a time: no process is spawned beside another.
   */
  predicate Orderly(s: State, e: Event) {
    match e
    case StartCalled(_, _) => s.r.timers == [] && s.os.alive == {} && s.r.stops == 0
    case StopCalled => s.r.flight.None?
    case RetryDue(outcome) => outcome.Spawned? ==> s.os.alive == {}
    case RestartDue(_, outcome) => outcome.Spawned? && s.m.status != Stopped ==> s.os.alive == {}
    case _ => true
  }

  predicate IsRun(s: State, run: seq<Event>)
    decreases |run|, 0
  {
    run == [] || (IsRun(s, run[..|run| - 1]) && Enabled(After(s, run[..|run| - 1]), run[|run| - 1]))
  }

  function After(s: State, run: seq<Event>): State
    requires IsRun(s, run)
    decreases |run|, 1
  {
    if run == [] then s else Step(After(s, run[..|run| - 1]), run[|run| - 1])
  }

  predicate OrderlyRun(s: State, run: seq<Event>)
    requires IsRun(s, run)
  {
    run == [] ||
    (OrderlyRun(s, run[..|run| - 1]) && Orderly(After(s, run[..|run| - 1]), run[|run| - 1]))
  }
}
