/** Safety of the backend manager over every orderly run, and what its restart limit amounts to. */
module BackendTheorems {
  import opened Wrappers
  import opened BackendModel

  // ---------- The invariant ----------

  ghost predicate ProcessesOk(s: State) {
    && (forall p :: p in s.os.alive ==> p < s.os.spawned)
    && (forall p, q :: p in s.os.alive && q in s.os.alive ==> p == q)
    && (forall p :: p in s.r.pollers ==> p < s.os.spawned)
    && (forall p :: p in s.os.exits ==> p < s.os.spawned)
    && (s.m.child.Some? ==> s.m.child.value < s.os.spawned)
  }

  /** A start in flight owns the child it awaits, and no late poller watches that child. */
  ghost predicate FlightOk(s: State, f: Flight) {
    && s.r.stops == 0
    && s.m.status in {Starting, Failed}
    && (f.phase.Retrying? ==> s.m.status == Failed)
    && (!f.phase.Retrying? ==>
          && s.m.child == Some(f.phase.pid) && f.phase.pid !in s.r.pollers
          && (f.phase.pid in s.os.exits ==> s.m.status == Failed))
  }

  ghost predicate Inv(s: State) {
    && ProcessesOk(s)
    && s.m.restartCount <= 1
    && (s.r.flight.Some? ==> FlightOk(s, s.r.flight.value))
    && (s.r.flight.None? && s.m.status == Starting ==> s.m.child.Some?)
    && (s.m.status == Running ==> s.m.child.Some? && s.r.flight.None?)
    && (s.m.status == Running && s.r.timers == [] ==> s.m.restartCount == 0)
    && (s.r.timers != [] ==>
          s.r.timers == [1000] && s.r.flight.None? && s.os.alive == {} && s.m.status in {Running, Stopped})
    && (s.r.stops > 0 ==> s.m.status == Stopped)
  }

  lemma AttemptKeeps(s: State, attempt: nat, restart: bool, keepsPending: bool, outcome: Outcome)
    requires ProcessesOk(s) && s.m.restartCount <= 1 && s.r.timers == [] && s.r.stops == 0
    requires outcome.Spawned? ==> s.os.alive == {}
    requires s.m.status == Running ==> s.m.child.Some? && s.m.restartCount == 0
    requires s.m.status == Starting ==> restart || s.m.child.Some?
    ensures Inv(AttemptStart(s, attempt, restart, keepsPending, outcome))
  {
  }

  lemma ExitKeeps(s: State, pid: nat, now: int)
    requires Inv(s) && pid in s.os.alive
    ensures Inv(OnExit(s, pid, now))
    ensures s.m.status == Running ==> OnExit(s, pid, now).r.timers == [1000]
  {
  }

  /** The continuations of a start in flight. */
  lemma FlightKeeps(s: State, e: Event)
    requires Inv(s) && Enabled(s, e)
    requires e.PortReported? || e.PortTimedOut? || e.HealthPassed? || e.HealthTimedOut?
      || e.KillSettled? || e.SpawnErrored?
    ensures Inv(Step(s, e))
  {
  }

  lemma RestartKeeps(s: State, i: nat, outcome: Outcome)
    requires Inv(s) && Enabled(s, RestartDue(i, outcome)) && Orderly(s, RestartDue(i, outcome))
    ensures Inv(OnRestartTimer(s, i, outcome))
  {
  }

  lemma CloseKeeps(s: State, pid: nat, peer: bool)
    requires Inv(s) && pid in s.os.exits
    ensures Inv(OnClose(s, pid, peer))
  {
  }

  lemma StepKeeps(s: State, e: Event)
    requires Inv(s) && Enabled(s, e) && Orderly(s, e)
    ensures Inv(Step(s, e))
  {
    match e
    case StartCalled(keepsPending, outcome) => AttemptKeeps(s, 0, false, keepsPending, outcome);
    case RetryDue(outcome) =>
      AttemptKeeps(s, s.r.flight.value.attempt + 1, s.r.flight.value.restart, s.m.keepsPending, outcome);
    case Exited(pid, now) => ExitKeeps(s, pid, now);
    case Closed(pid, peer) => CloseKeeps(s, pid, peer);
    case RestartDue(i, outcome) => RestartKeeps(s, i, outcome);
    case StopCalled =>
    case LateHealth(_) =>
    case PollerEnded(_) =>
    case StopSettled =>
    case _ => FlightKeeps(s, e);
  }

  lemma {:induction false} RunKeeps(run: seq<Event>)
    requires IsRun(INITIAL, run) && OrderlyRun(INITIAL, run)
    ensures Inv(After(INITIAL, run))
  {
    if run == [] {
    } else {
      var init := run[..|run| - 1];
      RunKeeps(init);
      StepKeeps(After(INITIAL, init), run[|run| - 1]);
    }
  }

  // ---------- Restarts ----------

  /** Every crash of a running backend schedules its restart after one second; the limit branch is never taken. */
  lemma EveryCrashRestarts(run: seq<Event>, pid: nat, now: int)
    requires IsRun(INITIAL, run) && OrderlyRun(INITIAL, run)
    requires After(INITIAL, run).m.status == Running && Enabled(After(INITIAL, run), Exited(pid, now))
    ensures var t := Step(After(INITIAL, run), Exited(pid, now));
      t.r.timers == [1000] && t.m.status == Running && t.m.restartCount == 1
  {
    var s := After(INITIAL, run);
    RunKeeps(run);
    ExitKeeps(s, pid, now);
    assert s.r.timers == [];
  }

  /** A healthy backend with nothing pending. */
  ghost predicate Serving(s: State) {
    && Inv(s) && s.m.status == Running && s.r == Runtime(None, [], s.r.pollers, 0)
    && s.m.child.Some? && s.os.alive == {s.m.child.value}
  }

  lemma Extend(s: State, run: seq<Event>, e: Event)
    requires IsRun(s, run) && Enabled(After(s, run), e)
    ensures IsRun(s, run + [e]) && After(s, run + [e]) == Step(After(s, run), e)
    ensures OrderlyRun(s, run) && Orderly(After(s, run), e) ==> OrderlyRun(s, run + [e])
  {
  }

  function Restarts(run: seq<Event>): nat {
    if run == [] then 0
    else Restarts(run[..|run| - 1]) + if run[|run| - 1].RestartDue? then 1 else 0
  }

  /** Every exit of the run happens at this moment. */
  predicate ExitsAt(run: seq<Event>, now: int) {
    run == [] || (ExitsAt(run[..|run| - 1], now) && (run[|run| - 1].Exited? ==> run[|run| - 1].now == now))
  }

  lemma Grow(s: State, run: seq<Event>, e: Event, now: int) returns (longer: seq<Event>)
    requires IsRun(s, run) && OrderlyRun(s, run) && Inv(After(s, run))
    requires Enabled(After(s, run), e) && Orderly(After(s, run), e)
    requires ExitsAt(run, now) && (e.Exited? ==> e.now == now)
    ensures ExitsAt(longer, now)
    ensures longer == run + [e] && IsRun(s, longer) && OrderlyRun(s, longer)
    ensures After(s, longer) == Step(After(s, run), e) && Inv(After(s, longer))
    ensures Restarts(longer) == Restarts(run) + if e.RestartDue? then 1 else 0
  {
    longer := run + [e];
    Extend(s, run, e);
    StepKeeps(After(s, run), e);
    assert longer[..|run|] == run;
  }

  lemma ComesUp(s: State, run: seq<Event>, now: int) returns (longer: seq<Event>)
    requires ExitsAt(run, now)
    requires IsRun(s, run) && OrderlyRun(s, run) && Inv(After(s, run))
    requires var t := After(s, run);
      t.r.flight.Some? && t.r.flight.value.phase.AwaitingPort? && t.os.alive == {t.r.flight.value.phase.pid}
    ensures IsRun(s, longer) && OrderlyRun(s, longer) && Serving(After(s, longer))
    ensures Restarts(longer) == Restarts(run)
    ensures ExitsAt(longer, now)
  {
    assert After(s, run).r.timers == [];
    longer := Grow(s, run, PortReported, now);
    longer := Grow(s, longer, HealthPassed, now);
  }

  lemma CrashRespawns(s: State, now: int)
    requires Serving(s)
    ensures var crash := Exited(s.m.child.value, now);
      && Enabled(s, crash)
      && Enabled(Step(s, crash), RestartDue(0, Spawned)) && Orderly(Step(s, crash), RestartDue(0, Spawned))
      && var t := Step(Step(s, crash), RestartDue(0, Spawned));
      && t.r.flight.Some? && t.r.flight.value.phase.AwaitingPort? && t.os.alive == {t.r.flight.value.phase.pid}
  {
  }

  lemma OneMoreRestart(s: State, run: seq<Event>, now: int) returns (longer: seq<Event>)
    requires ExitsAt(run, now)
    requires IsRun(s, run) && OrderlyRun(s, run) && Serving(After(s, run))
    ensures IsRun(s, longer) && OrderlyRun(s, longer) && Serving(After(s, longer))
    ensures Restarts(longer) == Restarts(run) + 1
    ensures ExitsAt(longer, now)
  {
    var crash := Exited(After(s, run).m.child.value, now);
    CrashRespawns(After(s, run), now);
    longer := Grow(s, run, crash, now);
    longer := Grow(s, longer, RestartDue(0, Spawned), now);
    longer := ComesUp(s, longer, now);
  }

  /** The limit of three restarts limits nothing: within one window a backend can crash and come back without end. */
  lemma {:induction false} RestartsUnlimited(n: nat, now: int) returns (run: seq<Event>)
    ensures IsRun(INITIAL, run) && OrderlyRun(INITIAL, run) && Serving(After(INITIAL, run))
    ensures Restarts(run) == n
    ensures ExitsAt(run, now)
  {
    if n == 0 {
      run := Grow(INITIAL, [], StartCalled(false, Spawned), now);
      run := ComesUp(INITIAL, run, now);
    } else {
      run := RestartsUnlimited(n - 1, now);
      run := OneMoreRestart(INITIAL, run, now);
    }
  }

  // ---------- stop() ----------

  /** No one calls start() during the run. */
  ghost predicate Unaided(run: seq<Event>) {
    forall e :: e in run ==> !e.StartCalled?
  }

  /** However long it runs without another start(), nothing is spawned and nothing reports running. */
  ghost predicate StaysDown(s: State) {
    forall run :: IsRun(s, run) && Unaided(run) ==>
      After(s, run).os.spawned == s.os.spawned && After(s, run).m.status != Running
  }

  /** This start is past its last attempt and only has to be cleaned up. */
  predicate Doomed(f: Flight) {
    f.phase.Killing? && f.attempt + 1 >= PEER_RETRY_MAX_ATTEMPTS
  }

  ghost predicate Quiet(s: State) {
    && s.m.status in {Stopped, Failed}
    && (s.r.flight.Some? ==> Doomed(s.r.flight.value) && s.r.timers == [])
    && (s.m.status == Failed ==> s.r.timers == [])
  }

  /** A stop() that finds no child and returns at once has nothing to stop: the manager is down for good. */
  lemma EarlyStopIsIdle(run: seq<Event>)
    requires IsRun(INITIAL, run) && OrderlyRun(INITIAL, run)
    requires After(INITIAL, run).m.child.None? && After(INITIAL, run).r.flight.None?
    ensures var s := After(INITIAL, run); Stop(s) == s && Quiet(s) && StaysDown(s)
  {
    RunKeeps(run);
    var s := After(INITIAL, run);
    forall later | IsRun(s, later) && Unaided(later)
      ensures After(s, later).os.spawned == s.os.spawned && After(s, later).m.status != Running
    {
      QuietStaysDown(s, later);
    }
  }

  /** What a crash and a stop leave of a healthy backend. */
  lemma CrashThenStop(s: State)
    requires Serving(s)
    ensures var crash := Exited(s.m.child.value, 0);
      && Enabled(s, crash)
      && var t := Step(s, crash);
      && t.r.flight.None? && t.m.child.Some? && t.r.timers == [1000]
      && Stop(t).r.timers == [1000] && Stop(t).r.stops == 1
  {
  }

  /** A crash restart can be pending without a child, once a stop() has settled before it is due. */
  lemma TimerWithoutChild() returns (run: seq<Event>)
    ensures IsRun(INITIAL, run) && OrderlyRun(INITIAL, run)
    ensures After(INITIAL, run).r.timers == [1000] && After(INITIAL, run).m.child.None?
  {
    run := RestartsUnlimited(0, 0);
    var s := After(INITIAL, run);
    CrashThenStop(s);
    run := Grow(INITIAL, run, Exited(s.m.child.value, 0), 0);
    run := Grow(INITIAL, run, StopCalled, 0);
    run := Grow(INITIAL, run, StopSettled, 0);
  }

  lemma QuietStep(s: State, e: Event)
    requires Quiet(s) && Enabled(s, e) && !e.StartCalled?
    ensures Quiet(Step(s, e)) && Step(s, e).os.spawned == s.os.spawned
  {
  }

  lemma {:induction false} QuietStaysDown(s: State, run: seq<Event>)
    requires Quiet(s) && IsRun(s, run)
    requires Unaided(run)
    ensures Quiet(After(s, run)) && After(s, run).os.spawned == s.os.spawned
  {
    if run == [] {
    } else {
      var init := run[..|run| - 1];
      assert run[|run| - 1] in run;
      forall e | e in init ensures e in run {}
      QuietStaysDown(s, init);
      QuietStep(After(s, init), run[|run| - 1]);
    }
  }

  ghost predicate WaitsToRetry(s: State) {
    s.r.flight.Some? && s.r.flight.value.phase.Retrying? && s.m.status != Running
  }

  lemma RetryNow(s: State, run: seq<Event>)
    requires IsRun(s, run) && Unaided(run)
    requires WaitsToRetry(After(s, run)) && After(s, run).os.alive == {}
    requires After(s, run).os.spawned == s.os.spawned
    ensures !StaysDown(s)
  {
    var retry := RetryDue(Spawned);
    Extend(s, run, retry);
    assert Unaided(run + [retry]);
    assert After(s, run + [retry]).os.spawned > s.os.spawned;
  }

  lemma ExitLeavesRetry(t: State, p: nat)
    requires WaitsToRetry(t) && t.os.alive == {p}
    ensures Enabled(t, Exited(p, 0))
    ensures var u := Step(t, Exited(p, 0)); WaitsToRetry(u) && u.os.alive == {} && u.os.spawned == t.os.spawned
  {
  }

  /** A start waiting to retry does so once the process it gave up on is gone. */
  lemma RetrySpawns(s: State, run: seq<Event>)
    requires IsRun(s, run) && Unaided(run)
    requires WaitsToRetry(After(s, run)) && After(s, run).os.spawned == s.os.spawned
    requires forall p, q :: p in After(s, run).os.alive && q in After(s, run).os.alive ==> p == q
    ensures !StaysDown(s)
  {
    var alive := After(s, run).os.alive;
    if alive == {} {
      RetryNow(s, run);
    } else {
      var p :| p in alive;
      assert alive == {p};
      ExitLeavesRetry(After(s, run), p);
      Extend(s, run, Exited(p, 0));
      assert Unaided(run + [Exited(p, 0)]);
      RetryNow(s, run + [Exited(p, 0)]);
    }
  }

  lemma HealthStillPasses(s: State, run: seq<Event>)
    requires IsRun(s, run) && Unaided(run)
    requires Enabled(After(s, run), HealthPassed)
    ensures !StaysDown(s)
  {
    Extend(s, run, HealthPassed);
    assert After(s, run + [HealthPassed]).m.status == Running;
  }

  /** stop() is final exactly when it does not race a start() that can still go on. */
  lemma StopIsFinalIff(s: State)
    requires Inv(s)
    ensures StaysDown(Stop(s)) <==> s.r.flight.None? || Doomed(s.r.flight.value)
  {
    var t := Stop(s);
    assert IsRun(t, []) && After(t, []) == t;
    if s.r.flight.None? || Doomed(s.r.flight.value) {
      forall run | IsRun(t, run) && Unaided(run)
        ensures After(t, run).os.spawned == t.os.spawned && After(t, run).m.status != Running
      {
        QuietStaysDown(t, run);
      }
    } else {
      match s.r.flight.value.phase
      case Retrying => RetrySpawns(t, []);
      case AwaitingHealth(_) => HealthStillPasses(t, []);
      case AwaitingPort(_) =>
        Extend(t, [], PortReported);
        HealthStillPasses(t, [] + [PortReported]);
      case Killing(_) =>
        Extend(t, [], KillSettled(true));
        RetrySpawns(t, [] + [KillSettled(true)]);
    }
  }
}
