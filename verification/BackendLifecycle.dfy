/** The backend manager itself: a mutable object, one method per stretch of code between two awaits. */
module BackendLifecycle {
  import opened Numbers
  import opened Wrappers
  import M = BackendModel
  import T = BackendTheorems

  class BackendLifecycleManager {
    var status: M.Status
    var childProcess: Option<nat>
    var restartCount: nat
    var restartWindowStart: int
    var keepsPending: bool
    // What is suspended, and the operating system's side.
    var pending: M.Runtime
    var processes: M.Processes

    ghost function Snapshot(): M.State
      reads this
    {
      M.State(M.Manager(status, childProcess, restartCount, restartWindowStart, keepsPending), pending, processes)
    }

    /** What every orderly run keeps; a call that is not orderly may break it. */
    ghost predicate Valid()
      reads this
    {
      T.Inv(Snapshot())
    }

    constructor ()
      ensures Valid() && Snapshot() == M.INITIAL
    {
      status, childProcess, restartCount, restartWindowStart := M.Stopped, None, 0, 0;
      keepsPending := false;
      pending := M.Runtime(None, [], {}, 0);
      processes := M.Processes({}, map[], 0);
    }

    /** The retry loop of start() on a rejected attempt. */
    method Reject(f: M.Flight, peer: bool)
      modifies `pending, `status
      ensures Snapshot() == M.Reject(old(Snapshot()), f, peer)
    {
      if !peer || f.attempt >= M.PEER_RETRY_MAX_ATTEMPTS - 1 {
        pending := pending.(flight := None);
        if f.restart { status := M.Failed; }
        return;
      }
      pending := pending.(flight := Some(f.(phase := M.Retrying)));
    }

    method AttemptStart(attempt: nat, restart: bool, allowPending: bool, outcome: M.Outcome)
      modifies this
      ensures Snapshot() == M.AttemptStart(old(Snapshot()), attempt, restart, allowPending, outcome)
    {
      var f := M.Flight(attempt, restart, M.AwaitingPort(processes.spawned));
      if outcome == M.ResolveFails {
        Reject(f, false);
        return;
      }
      status := M.Starting;
      keepsPending := allowPending;
      if outcome != M.Spawned {
        status := M.Failed;
        Reject(f, false);
        return;
      }
      childProcess := Some(processes.spawned);
      pending := pending.(flight := Some(f));
      processes := processes.(alive := processes.alive + {processes.spawned}, spawned := processes.spawned + 1);
    }

    /** start(), called by the application. */
    method Start(allowPending: bool, outcome: M.Outcome)
      requires M.Enabled(Snapshot(), M.StartCalled(allowPending, outcome))
      modifies this
      ensures Snapshot() == M.Step(old(Snapshot()), M.StartCalled(allowPending, outcome))
      ensures old(Valid()) && M.Orderly(old(Snapshot()), M.StartCalled(allowPending, outcome)) ==> Valid()
    {
      ghost var e := M.StartCalled(allowPending, outcome);
      if Valid() && M.Orderly(Snapshot(), e) { T.StepKeeps(Snapshot(), e); }
      AttemptStart(0, false, allowPending, outcome);
    }

    /** The next turn of start()'s retry loop. */
    method Retry(outcome: M.Outcome)
      requires M.Enabled(Snapshot(), M.RetryDue(outcome))
      modifies this
      ensures Snapshot() == M.Step(old(Snapshot()), M.RetryDue(outcome))
      ensures old(Valid()) && M.Orderly(old(Snapshot()), M.RetryDue(outcome)) ==> Valid()
    {
      if Valid() && M.Orderly(Snapshot(), M.RetryDue(outcome)) { T.StepKeeps(Snapshot(), M.RetryDue(outcome)); }
      var f := pending.flight.value;
      AttemptStart(f.attempt + 1, f.restart, keepsPending, outcome);
    }

    /** The child's error handler, while its start is not settled; the process may be gone or not. */
    method OnError(gone: bool)
      requires M.Enabled(Snapshot(), M.SpawnErrored(gone))
      modifies this
      ensures Snapshot() == M.Step(old(Snapshot()), M.SpawnErrored(gone))
      ensures old(Valid()) ==> Valid()
    {
      if Valid() { T.StepKeeps(Snapshot(), M.SpawnErrored(gone)); }
      var f := pending.flight.value;
      if gone { processes := processes.(alive := processes.alive - {f.phase.pid}); }
      status := M.Failed;
      Reject(f, false);
    }

    method HandleCrash(now: int)
      modifies `restartCount, `restartWindowStart, `status, `pending
      ensures Snapshot() == M.HandleCrash(old(Snapshot()), now)
    {
      if now - restartWindowStart > 60000 {
        restartCount := 0;
        restartWindowStart := now;
      }
      restartCount := restartCount + 1;
      if restartCount > 3 {
        status := M.Failed;
        return;
      }
      var delay := Pow2(restartCount - 1) * 1000;
      pending := pending.(timers := pending.timers + [delay]);
    }

    /** The child's exit handler. */
    method OnExit(pid: nat, now: int)
      requires M.Enabled(Snapshot(), M.Exited(pid, now))
      modifies this
      ensures Snapshot() == M.Step(old(Snapshot()), M.Exited(pid, now))
      ensures old(Valid()) ==> Valid()
    {
      if Valid() { T.StepKeeps(Snapshot(), M.Exited(pid, now)); }
      var awaited := pending.flight.Some?
        && pending.flight.value.phase in {M.AwaitingPort(pid), M.AwaitingHealth(pid)};
      processes := processes.(alive := processes.alive - {pid});
      if status == M.Running {
        HandleCrash(now);
        return;
      }
      if awaited {
        processes := processes.(exits := processes.exits[pid := status == M.Stopped]);
      }
      if status != M.Stopped { status := M.Failed; }
    }

    /** The child's close handler. */
    method OnClose(pid: nat, peer: bool)
      requires M.Enabled(Snapshot(), M.Closed(pid, peer))
      modifies this
      ensures Snapshot() == M.Step(old(Snapshot()), M.Closed(pid, peer))
      ensures old(Valid()) ==> Valid()
    {
      if Valid() { T.StepKeeps(Snapshot(), M.Closed(pid, peer)); }
      var cancelled := processes.exits[pid];
      processes := processes.(exits := processes.exits - {pid});
      if pending.flight.Some? && pending.flight.value.phase in {M.AwaitingPort(pid), M.AwaitingHealth(pid)} {
        Reject(pending.flight.value, peer && !cancelled);
      }
    }

    /** start() once waitForHealth has succeeded. */
    method HealthReady()
      requires M.Enabled(Snapshot(), M.HealthPassed)
      modifies `pending, `status, `restartCount
      ensures Snapshot() == M.Step(old(Snapshot()), M.HealthPassed)
      ensures old(Valid()) ==> Valid()
    {
      if Valid() { T.StepKeeps(Snapshot(), M.HealthPassed); }
      pending := pending.(flight := None);
      status := M.Running;
      restartCount := 0;
    }

    /** start() once waitForHealth has timed out: keep the child and poll on, or kill it. */
    method HealthTimeout()
      requires M.Enabled(Snapshot(), M.HealthTimedOut)
      modifies `pending
      ensures Snapshot() == M.Step(old(Snapshot()), M.HealthTimedOut)
      ensures old(Valid()) ==> Valid()
    {
      if Valid() { T.StepKeeps(Snapshot(), M.HealthTimedOut); }
      var f := pending.flight.value;
      if keepsPending && childProcess.Some? {
        pending := pending.(flight := None, pollers := pending.pollers + {childProcess.value});
        return;
      }
      pending := pending.(flight := Some(f.(phase := M.Killing(f.phase.pid))));
    }

    method Killed(peer: bool)
      requires M.Enabled(Snapshot(), M.KillSettled(peer))
      modifies `childProcess, `status, `pending
      ensures Snapshot() == M.Step(old(Snapshot()), M.KillSettled(peer))
      ensures old(Valid()) ==> Valid()
    {
      if Valid() { T.StepKeeps(Snapshot(), M.KillSettled(peer)); }
      childProcess := None;
      status := M.Failed;
      Reject(pending.flight.value, peer);
    }

    /** The callback that handleCrash schedules. */
    method RestartAfterCrash(i: nat, outcome: M.Outcome)
      requires M.Enabled(Snapshot(), M.RestartDue(i, outcome))
      modifies this
      ensures Snapshot() == M.Step(old(Snapshot()), M.RestartDue(i, outcome))
      ensures old(Valid()) && M.Orderly(old(Snapshot()), M.RestartDue(i, outcome)) ==> Valid()
    {
      ghost var e := M.RestartDue(i, outcome);
      if Valid() && M.Orderly(Snapshot(), e) { T.StepKeeps(Snapshot(), e); }
      pending := pending.(timers := pending.timers[..i] + pending.timers[i + 1..]);
      if status == M.Stopped { return; }
      status := M.Starting;
      AttemptStart(0, true, keepsPending, outcome);
    }

    /** continueWaitingForHealth once its poll has succeeded. */
    method LateReady(pid: nat)
      requires M.Enabled(Snapshot(), M.LateHealth(pid))
      modifies `pending, `status, `restartCount
      ensures Snapshot() == M.Step(old(Snapshot()), M.LateHealth(pid))
      ensures old(Valid()) ==> Valid()
    {
      if Valid() { T.StepKeeps(Snapshot(), M.LateHealth(pid)); }
      pending := pending.(pollers := pending.pollers - {pid});
      if childProcess != Some(pid) || status != M.Starting { return; }
      status := M.Running;
      restartCount := 0;
    }

    /** stop() as far as its await. */
    method Stop()
      modifies `status, `pending
      ensures Snapshot() == M.Stop(old(Snapshot()))
      ensures old(Valid()) && M.Orderly(old(Snapshot()), M.StopCalled) ==> Valid()
    {
      if Valid() && M.Orderly(Snapshot(), M.StopCalled) { T.StepKeeps(Snapshot(), M.StopCalled); }
      if childProcess == None { return; }
      status := M.Stopped;
      pending := pending.(stops := pending.stops + 1);
    }

    /** stop() after its await. */
    method StopSettled()
      requires M.Enabled(Snapshot(), M.StopSettled)
      modifies `childProcess, `pending
      ensures Snapshot() == M.Step(old(Snapshot()), M.StopSettled)
      ensures old(Valid()) ==> Valid()
    {
      if Valid() { T.StepKeeps(Snapshot(), M.StopSettled); }
      childProcess := None;
      pending := pending.(stops := pending.stops - 1);
    }
  }
}
