/** What each event does to the manager, read off its fields alone: crashes, timeouts, restarts, pollers, stops. */
module BackendEventTheorems {
  import opened Numbers
  import opened Wrappers
  import opened BackendModel

  // ---------- Crashes ----------

  /** Which crash of its window the next one would be. */
  function CrashCount(s: State, now: int): nat {
    if now - s.m.windowStart > 60000 then 1 else s.m.restartCount + 1
  }

  /** The restart delays of a window: one, two and four seconds, and then none. */
  function Delays(count: nat): seq<nat> {
    match count
    case 1 => [1000]
    case 2 => [2000]
    case 3 => [4000]
    case _ => []
  }

  /** A crash restarts the backend after its delay, unless it is the fourth of its window. */
  lemma CrashIff(s: State, pid: nat, now: int)
    requires pid in s.os.alive && s.m.status == Running
    ensures Enabled(s, Exited(pid, now))
    ensures var t, count := Step(s, Exited(pid, now)), CrashCount(s, now);
      && t.r.timers == s.r.timers + Delays(count)
      && t.m.status == (if count <= 3 then Running else Failed)
      && t.m.restartCount == count
      && t.m.windowStart == (if now - s.m.windowStart > 60000 then now else s.m.windowStart)
      && pid !in t.os.alive
  {
    assert Pow2(0) == 1 && Pow2(1) == 2 && Pow2(2) == 4;
    if CrashCount(s, now) > 3 {
      assert s.r.timers + [] == s.r.timers;
    }
  }

  /** An exit outside that is no crash: it is remembered only for a start that waits for it. */
  lemma ExitIsRemembered(s: State, pid: nat, now: int)
    requires pid in s.os.alive && s.m.status != Running
    ensures var t := Step(s, Exited(pid, now));
      && t.r == s.r && t.os.alive == s.os.alive - {pid}
      && t.m == s.m.(status := if s.m.status == Stopped then Stopped else Failed)
      && t.os.exits == if Awaits(s, pid) then s.os.exits[pid := s.m.status == Stopped] else s.os.exits
  {
  }

  // ---------- Starts ----------

  /** The attempt with this number has begun or, without a process, ended the start. */
  ghost predicate Began(s: State, t: State, attempt: nat, restart: bool, outcome: Outcome) {
    if outcome.Spawned? then
      && t.r.flight == Some(Flight(attempt, restart, AwaitingPort(s.os.spawned)))
      && t.os.alive == s.os.alive + {s.os.spawned} && t.os.spawned == s.os.spawned + 1
      && t.m.child == Some(s.os.spawned) && t.m.status == Starting
    else
      && t.r.flight.None? && t.os == s.os && t.m.child == s.m.child
      && t.m.status == if outcome.ResolveFails? && !restart then s.m.status else Failed
  }

  /** A start call makes its first attempt, and its option is recorded once its resources are resolved. */
  lemma StartBegins(s: State, keepsPending: bool, outcome: Outcome)
    requires Enabled(s, StartCalled(keepsPending, outcome))
    ensures var t := Step(s, StartCalled(keepsPending, outcome));
      && Began(s, t, 0, false, outcome)
      && t.m.keepsPending == (if outcome.ResolveFails? then s.m.keepsPending else keepsPending)
      && t.r == s.r.(flight := t.r.flight)
  {
  }

  /** A restart does the same with the options of the last start, unless the manager was stopped meanwhile. */
  lemma RestartBegins(s: State, i: nat, outcome: Outcome)
    requires Enabled(s, RestartDue(i, outcome))
    ensures var t := Step(s, RestartDue(i, outcome));
      && t.r.timers == s.r.timers[..i] + s.r.timers[i + 1..]
      && t.m.keepsPending == s.m.keepsPending
      && if s.m.status == Stopped then t.m == s.m && t.os == s.os && t.r.flight == s.r.flight
         else Began(s, t, 0, true, outcome)
  {
  }

  // ---------- Waiting for the port and for health ----------

  /** The start in flight goes on in this phase, and nothing else changes. */
  ghost predicate GoesOn(s: State, t: State, phase: Phase)
    requires s.r.flight.Some?
  {
    t == s.(r := s.r.(flight := Some(Flight(s.r.flight.value.attempt, s.r.flight.value.restart, phase))))
  }

  lemma PortIsNext(s: State)
    requires Enabled(s, PortReported) || Enabled(s, PortTimedOut)
    ensures Enabled(s, PortReported) && Enabled(s, PortTimedOut)
    ensures var pid := s.r.flight.value.phase.pid;
      && GoesOn(s, Step(s, PortReported), AwaitingHealth(pid))
      && GoesOn(s, Step(s, PortTimedOut), Killing(pid))
  {
  }

  /** A start that is not healthy in time succeeds all the same, with a poller, or has its process killed. */
  lemma HealthTimeoutIff(s: State)
    requires Enabled(s, HealthTimedOut)
    ensures var t := Step(s, HealthTimedOut);
      if s.m.keepsPending && s.m.child.Some?
      then t == s.(r := Runtime(None, s.r.timers, s.r.pollers + {s.m.child.value}, s.r.stops))
      else GoesOn(s, t, Killing(s.r.flight.value.phase.pid))
  {
  }

  /** A healthy start ends, with the crashes forgotten. */
  lemma HealthEndsStart(s: State)
    requires Enabled(s, HealthPassed)
    ensures var t := Step(s, HealthPassed);
      && t.r == s.r.(flight := None) && t.os == s.os
      && t.m == Manager(Running, s.m.child, 0, s.m.windowStart, s.m.keepsPending)
  {
  }

  /** An error of the process may come in either wait, and takes the process with it if it is gone. */
  lemma ErrorIsFinal(s: State, gone: bool)
    requires Enabled(s, PortReported) || Enabled(s, HealthPassed)
    ensures Enabled(s, SpawnErrored(gone))
    ensures var t, pid := Step(s, SpawnErrored(gone)), s.r.flight.value.phase.pid;
      && t.r == s.r.(flight := None)
      && t.os.alive == (if gone then s.os.alive - {pid} else s.os.alive)
      && t.m == s.m.(status := Failed)
  {
  }

  // ---------- Late pollers and stops ----------

  /** A poller reports running exactly while its child is still the one starting. */
  lemma LateHealthIff(s: State, pid: nat)
    requires pid in s.r.pollers
    ensures Enabled(s, LateHealth(pid))
    ensures var t := Step(s, LateHealth(pid));
      && t.r == s.r.(pollers := s.r.pollers - {pid}) && t.os == s.os
      && t.m == if s.m.child == Some(pid) && s.m.status == Starting
                then Manager(Running, s.m.child, 0, s.m.windowStart, s.m.keepsPending) else s.m
  {
  }

  /** It gives up exactly when that is no longer so. */
  lemma PollerEndsIff(s: State, pid: nat)
    requires pid in s.r.pollers
    ensures Enabled(s, PollerEnded(pid)) <==> s.m.child != Some(pid) || s.m.status != Starting
    ensures Enabled(s, PollerEnded(pid)) ==>
      Step(s, PollerEnded(pid)) == s.(r := s.r.(pollers := s.r.pollers - {pid}))
  {
  }

  /** A stop with a child is under way until its kill has settled; then there is no child. */
  lemma StopRuns(s: State)
    ensures Enabled(s, StopCalled)
    ensures var t := Step(s, StopCalled);
      if s.m.child.None? then t == s
      else && t.m == s.m.(status := Stopped) && t.r == s.r.(stops := s.r.stops + 1) && t.os == s.os
           && Enabled(t, StopSettled)
           && Step(t, StopSettled) == s.(m := s.m.(status := Stopped, child := None))
  {
  }
}
