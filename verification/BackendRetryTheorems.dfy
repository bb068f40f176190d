/** Starting beside a peer: which failed attempts are made again, and how often. */
module BackendRetryTheorems {
  import opened Wrappers
  import opened BackendModel
  import opened BackendTheorems

  /** The start in flight waits for this process. */
  predicate Waits(s: State, pid: nat) {
    s.r.flight.Some? && s.r.flight.value.phase in {AwaitingPort(pid), AwaitingHealth(pid)}
  }

  /** What is left of a start in flight whose attempt has failed. */
  predicate Leaves(before: Flight, after: Option<Flight>, again: bool) {
    after == if again then Some(Flight(before.attempt, before.restart, Retrying)) else None
  }

  /**
   * An awaited process that exits and closes fails its attempt. It is made again exactly when a peer
   * owns the data directory, nobody had stopped the manager, and it was not the fifth.
   */
  lemma EarlyExitIff(s: State, pid: nat, now: int, peer: bool)
    requires Waits(s, pid) && pid in s.os.alive && s.m.status != Running
    ensures Enabled(s, Exited(pid, now))
    ensures var t := Step(s, Exited(pid, now));
      && t.r.flight == s.r.flight && Enabled(t, Closed(pid, peer))
      && Leaves(s.r.flight.value, Step(t, Closed(pid, peer)).r.flight,
                peer && s.m.status != Stopped && s.r.flight.value.attempt + 1 < 5)
  {
  }

  /** The close of a process no one waits for leaves the start in flight alone. */
  lemma OtherCloseIff(s: State, pid: nat, peer: bool)
    requires Enabled(s, Closed(pid, peer))
    ensures var t := Step(s, Closed(pid, peer));
      if Waits(s, pid)
      then Leaves(s.r.flight.value, t.r.flight, peer && !s.os.exits[pid] && s.r.flight.value.attempt + 1 < 5)
      else t.r.flight == s.r.flight
  {
  }

  /** So is a killed process, whose output tells of a peer or not. */
  lemma KilledIff(s: State, peer: bool)
    requires Enabled(s, KillSettled(peer))
    ensures var t := Step(s, KillSettled(peer));
      && Leaves(s.r.flight.value, t.r.flight, peer && s.r.flight.value.attempt + 1 < 5)
      && t.m.child.None? && t.m.status == Failed
  {
  }

  /** What goes wrong before there is a process, or with it, is not tried again. */
  lemma ErrorEndsStart(s: State, gone: bool)
    requires Enabled(s, SpawnErrored(gone))
    ensures Step(s, SpawnErrored(gone)).r.flight.None? && Step(s, SpawnErrored(gone)).m.status == Failed
  {
  }

  /** An attempt without a process ends the start; one with a process waits for its port, as the next attempt. */
  lemma AttemptIff(s: State, outcome: Outcome)
    requires Enabled(s, RetryDue(outcome))
    ensures var t, f := Step(s, RetryDue(outcome)), s.r.flight.value;
      if outcome.Spawned?
      then t.r.flight == Some(Flight(f.attempt + 1, f.restart, AwaitingPort(s.os.spawned)))
        && t.os.spawned == s.os.spawned + 1 && t.m.child == Some(s.os.spawned) && t.m.status == Starting
      else t.r.flight.None? && t.os.spawned == s.os.spawned && t.m.child == s.m.child
  {
  }

  /** No start is ever at more than its fifth attempt, orderly or not. */
  lemma {:induction false} FiveAttempts(run: seq<Event>)
    requires IsRun(INITIAL, run)
    ensures var f := After(INITIAL, run).r.flight; f.Some? ==>
      f.value.attempt < 5 && (f.value.phase.Retrying? ==> f.value.attempt < 4)
  {
    if run == [] {
    } else {
      FiveAttempts(run[..|run| - 1]);
      FiveAttemptsStep(After(INITIAL, run[..|run| - 1]), run[|run| - 1]);
    }
  }

  predicate WithinFive(f: Option<Flight>) {
    f.Some? ==> f.value.attempt < 5 && (f.value.phase.Retrying? ==> f.value.attempt < 4)
  }

  lemma FiveAttemptsStep(s: State, e: Event)
    requires WithinFive(s.r.flight) && Enabled(s, e)
    ensures WithinFive(Step(s, e).r.flight)
  {
  }

  // ---------- A peer that stays ----------

  /** The n-th attempt waits for its process, those before being gone. */
  ghost predicate OnAttempt(s: State, n: nat) {
    && Inv(s)
    && s.r == Runtime(Some(Flight(n, false, AwaitingPort(n))), [], {}, 0)
    && s.os == Processes({n}, map[], n + 1)
    && s.m.status == Starting && s.m.child == Some(n)
  }

  /** Its process has exited and closed, and told of a peer. */
  function AfterPeerExit(s: State, n: nat, now: int): State
    requires OnAttempt(s, n)
  {
    Step(Step(s, Exited(n, now)), Closed(n, true))
  }

  lemma PeerExitStep(s: State, n: nat, now: int)
    requires OnAttempt(s, n) && n <= 4
    ensures var t := AfterPeerExit(s, n, now);
      && t.os == Processes({}, map[], n + 1) && t.m.status == Failed && t.r.timers == [] && t.r.stops == 0
      && t.r == Runtime(if n < 4 then Some(Flight(n, false, Retrying)) else None, [], {}, 0)
  {
    EarlyExitIff(s, n, now, true);
  }

  lemma NextAttempt(s: State, n: nat, now: int)
    requires OnAttempt(s, n) && n < 4
    ensures var t := AfterPeerExit(s, n, now); var u := Step(t, RetryDue(Spawned));
      && u.r == Runtime(Some(Flight(n + 1, false, AwaitingPort(n + 1))), [], {}, 0)
      && u.os == Processes({n + 1}, map[], n + 2)
      && u.m.status == Starting && u.m.child == Some(n + 1)
  {
    PeerExitStep(s, n, now);
    AttemptIff(AfterPeerExit(s, n, now), Spawned);
  }

  /** A run goes on by the exit and the close of a process beside a peer. */
  lemma GoPeerExit(run: seq<Event>, n: nat, now: int) returns (longer: seq<Event>)
    requires IsRun(INITIAL, run) && OrderlyRun(INITIAL, run) && OnAttempt(After(INITIAL, run), n) && n <= 4
    requires ExitsAt(run, now)
    ensures IsRun(INITIAL, longer) && OrderlyRun(INITIAL, longer) && ExitsAt(longer, now)
    ensures After(INITIAL, longer) == AfterPeerExit(After(INITIAL, run), n, now) && Inv(After(INITIAL, longer))
  {
    longer := Grow(INITIAL, run, Exited(n, now), now);
    longer := Grow(INITIAL, longer, Closed(n, true), now);
  }

  lemma FirstAttempt(now: int) returns (run: seq<Event>)
    ensures IsRun(INITIAL, run) && OrderlyRun(INITIAL, run) && OnAttempt(After(INITIAL, run), 0)
    ensures ExitsAt(run, now)
  {
    run := Grow(INITIAL, [], StartCalled(false, Spawned), now);
  }

  lemma GoRetry(run: seq<Event>, n: nat, now: int) returns (longer: seq<Event>)
    requires IsRun(INITIAL, run) && OrderlyRun(INITIAL, run) && OnAttempt(After(INITIAL, run), n) && n < 4
    requires ExitsAt(run, now)
    ensures IsRun(INITIAL, longer) && OrderlyRun(INITIAL, longer) && OnAttempt(After(INITIAL, longer), n + 1)
    ensures ExitsAt(longer, now)
  {
    var s := After(INITIAL, run);
    PeerExitStep(s, n, now);
    NextAttempt(s, n, now);
    longer := GoPeerExit(run, n, now);
    longer := Grow(INITIAL, longer, RetryDue(Spawned), now);
  }

  /** Every early exit beside a peer leads to one more process, four times. */
  lemma {:induction false} PeerExits(n: nat, now: int) returns (run: seq<Event>)
    requires n <= 4
    ensures IsRun(INITIAL, run) && OrderlyRun(INITIAL, run) && OnAttempt(After(INITIAL, run), n)
    ensures ExitsAt(run, now)
  {
    if n == 0 {
      run := FirstAttempt(now);
    } else {
      run := PeerExits(n - 1, now);
      run := GoRetry(run, n - 1, now);
    }
  }

  /** The fifth ends the start. */
  lemma FifthEndsStart(now: int) returns (run: seq<Event>)
    ensures IsRun(INITIAL, run) && OrderlyRun(INITIAL, run)
    ensures var s := After(INITIAL, run);
      s.r.flight.None? && s.os == Processes({}, map[], 5) && s.m.status == Failed
  {
    run := PeerExits(4, now);
    PeerExitStep(After(INITIAL, run), 4, now);
    run := GoPeerExit(run, 4, now);
  }
}
