/** Polling the backend's health: what the diagnostics of one wait say about its attempts. */
module HealthPoll {
  import opened Numbers
  import opened Wrappers

  const INTERVAL_MS: int := 200

  /** What an attempt brings: a good response, another one whose body is read or not, or none at all. */
  datatype Answer =
    | Healthy
    | Refusal(status: int, body: string)
    | UnreadableRefusal(status: int, error: string)
    | NoResponse(error: string)

  /** One pass: the reading of the loop's condition, the wish to go on, the reading at the attempt, its answer. */
  datatype Pass = Pass(checkedAt: int, goOn: bool, startedAt: int, answer: Answer)

  /** The last status, body and error; each answer but a good one overwrites all three. */
  datatype Record = Record(status: Option<int>, body: Option<string>, error: Option<string>)

  function Recorded(answer: Answer): Record
    requires !answer.Healthy?
  {
    match answer
    case Refusal(status, body) => Record(Some(status), Some(if |body| > 500 then body[..500] else body), None)
    case UnreadableRefusal(status, error) => Record(Some(status), None, Some(error))
    case NoResponse(error) => Record(None, None, Some(error))
  }

  /** What the first n passes have left recorded. */
  function LastRecord(pass: nat -> Pass, n: nat): Record {
    if n == 0 then Record(None, None, None)
    else if pass(n - 1).answer.Healthy? then LastRecord(pass, n - 1)
    else Recorded(pass(n - 1).answer)
  }

  /** Each answer but a good one leaves what it brought, of a body the first 500 characters. */
  lemma RecordedIs(answer: Answer)
    requires !answer.Healthy?
    ensures var r := Recorded(answer);
      && r.status == (if answer.NoResponse? then None else Some(answer.status))
      && r.error == (if answer.Refusal? then None else Some(answer.error))
      && (r.body.Some? <==> answer.Refusal?)
      && (r.body.Some? ==> r.body.value <= answer.body)
      && (r.body.Some? ==> |r.body.value| == if |answer.body| > 500 then 500 else |answer.body|)
  {
  }

  /** A clock that never goes back, and a sleep of at least the interval between two passes. */
  ghost predicate Paced(start: int, pass: nat -> Pass) {
    && start <= pass(0).checkedAt
    && forall i: nat :: PacedAt(pass, i)
  }

  predicate PacedAt(pass: nat -> Pass, i: nat) {
    pass(i).checkedAt <= pass(i).startedAt && pass(i).startedAt + INTERVAL_MS <= pass(i + 1).checkedAt
  }

  datatype Diagnostics = Diagnostics(
    attempts: nat,
    expectedAttempts: Option<int>,
    lastGap: Option<int>,
    maxGap: Option<int>,
    lastAttemptAfter: Option<int>,
    elapsed: int,
    record: Record,
    late: Option<Lateness>)

  /** Recorded when a finite wait ends without success, with what a last try to connect brought. */
  datatype Lateness = Lateness(deficit: int, overrun: int, delayed: bool, tcp: string)

  function Ceil(a: int, b: int): int
    requires b > 0
  {
    -((-a) / b)
  }

  /** The whole intervals that hold a. */
  lemma CeilIs(a: int, b: int)
    requires b > 0
    ensures (Ceil(a, b) - 1) * b < a <= Ceil(a, b) * b
  {
    var q := (-a) / b;
    assert (-q - 1) * b == -(q * b) - b && (-q) * b == -(q * b);
  }

  function Gap(pass: nat -> Pass, i: nat): int {
    pass(i + 1).startedAt - pass(i).startedAt
  }

  function LastGap(pass: nat -> Pass, n: nat): Option<int> {
    if n < 2 then None else Some(Gap(pass, n - 2))
  }

  function MaxGap(pass: nat -> Pass, n: nat): Option<int> {
    if n < 2 then None
    else if n == 2 then Some(Gap(pass, 0))
    else Some(Max(MaxGap(pass, n - 1).value, Gap(pass, n - 2)))
  }

  lemma {:induction false} MaxGapIsMost(start: int, pass: nat -> Pass, n: nat, i: nat)
    requires Paced(start, pass) && i < n - 1
    ensures INTERVAL_MS <= Gap(pass, i) <= MaxGap(pass, n).value
    ensures exists j: nat :: j < n - 1 && Gap(pass, j) == MaxGap(pass, n).value
  {
    assert PacedAt(pass, i) && PacedAt(pass, i + 1);
    if n == 2 {
      assert Gap(pass, 0) == MaxGap(pass, n).value;
    } else {
      MaxGapIsMost(start, pass, n - 1, if i < n - 2 then i else 0);
      var j: nat :| j < n - 2 && Gap(pass, j) == MaxGap(pass, n - 1).value;
      assert Gap(pass, n - 2) == MaxGap(pass, n).value || Gap(pass, j) == MaxGap(pass, n).value;
    }
  }

  /** Passes that attempt: the deadline, if there is one, is ahead and the caller wants to go on. */
  predicate Attempts(pass: nat -> Pass, start: int, timeoutMs: Option<int>, i: nat) {
    (timeoutMs.Some? ==> pass(i).checkedAt - start < timeoutMs.value) && pass(i).goOn
  }

  lemma {:induction false} Spread(start: int, pass: nat -> Pass, n: nat)
    requires Paced(start, pass)
    ensures pass(n).checkedAt - start >= n * INTERVAL_MS
  {
    if n == 0 {
    } else {
      Spread(start, pass, n - 1);
      assert PacedAt(pass, n - 1);
    }
  }

  /** The attempts never outnumber the intervals that the timeout holds. */
  lemma AttemptsFit(start: int, pass: nat -> Pass, timeoutMs: int, n: nat)
    requires Paced(start, pass) && n > 0 && Attempts(pass, start, Some(timeoutMs), n - 1)
    ensures n <= Ceil(timeoutMs, INTERVAL_MS)
  {
    Spread(start, pass, n - 1);
  }

  /** The attempts lie no further apart than their largest gap allows. */
  lemma {:induction false} GapsAddUp(start: int, pass: nat -> Pass, n: nat, k: nat)
    requires Paced(start, pass) && k < n
    ensures n > 1 ==> pass(k).startedAt - pass(0).startedAt <= k * MaxGap(pass, n).value
  {
    if k == 0 {
    } else {
      GapsAddUp(start, pass, n, k - 1);
      MaxGapIsMost(start, pass, n, k - 1);
      assert k * MaxGap(pass, n).value == (k - 1) * MaxGap(pass, n).value + MaxGap(pass, n).value;
    }
  }

  /** The loop: polls until a pass is healthy or attempts no more. */
  method Poll(start: int, timeoutMs: Option<int>, pass: nat -> Pass, ghost last: nat)
    returns (ok: bool, attempts: nat, lastGap: Option<int>, maxGap: Option<int>, after: Option<int>, record: Record)
    requires Paced(start, pass)
    requires timeoutMs.None? ==> pass(last).answer.Healthy? || !pass(last).goOn
    ensures forall i :: 0 <= i < attempts ==> Attempts(pass, start, timeoutMs, i)
    ensures forall i :: 0 <= i < attempts - 1 ==> !pass(i).answer.Healthy?
    ensures ok <==> attempts > 0 && pass(attempts - 1).answer.Healthy?
    ensures !ok ==> !Attempts(pass, start, timeoutMs, attempts)
    ensures lastGap == LastGap(pass, attempts) && maxGap == MaxGap(pass, attempts)
    ensures attempts > 0 ==> after == Some(pass(attempts - 1).startedAt - start)
    ensures record == LastRecord(pass, attempts)
  {
    var previousAttemptAt: Option<int> := None;
    attempts, lastGap, maxGap, after := 0, None, None, None;
    record := Record(None, None, None);
    while (timeoutMs.Some? ==> pass(attempts).checkedAt - start < timeoutMs.value) && pass(attempts).goOn
      invariant forall j :: 0 <= j < attempts ==> Attempts(pass, start, timeoutMs, j) && !pass(j).answer.Healthy?
      invariant lastGap == LastGap(pass, attempts) && maxGap == MaxGap(pass, attempts)
      invariant previousAttemptAt == if attempts == 0 then None else Some(pass(attempts - 1).startedAt)
      invariant attempts > 0 ==> after == Some(pass(attempts - 1).startedAt - start)
      invariant record == LastRecord(pass, attempts)
      invariant timeoutMs.None? ==> attempts <= last
      decreases if timeoutMs.Some? then timeoutMs.value - (pass(attempts).checkedAt - start) else last - attempts
    {
      var attemptStartedAt := pass(attempts).startedAt;
      assert PacedAt(pass, attempts) && (attempts > 0 ==> PacedAt(pass, attempts - 1));
      if previousAttemptAt.Some? {
        var gap := attemptStartedAt - previousAttemptAt.value;
        lastGap := Some(gap);
        maxGap := Some(Max(if maxGap.Some? then maxGap.value else 0, gap));
      }
      previousAttemptAt := Some(attemptStartedAt);
      after := Some(attemptStartedAt - start);
      attempts := attempts + 1;
      if pass(attempts - 1).answer.Healthy? {
        ok := true;
        return;
      }
      record := Recorded(pass(attempts - 1).answer);
    }
    ok := false;
  }

  /**
   * Without a deadline (None) the wait lasts as long as the caller wishes: it ends if ever a pass, here called
   * last, is healthy or no longer wished for.
   */
  method WaitForHealth(start: int, timeoutMs: Option<int>, pass: nat -> Pass, endedAt: nat -> int, tcp: string,
                       ghost last: nat)
    returns (ok: bool, d: Diagnostics)
    requires Paced(start, pass)
    requires forall i :: endedAt(i) >= pass(i).checkedAt
    requires timeoutMs.None? ==> pass(last).answer.Healthy? || !pass(last).goOn
    ensures forall i :: 0 <= i < d.attempts ==> Attempts(pass, start, timeoutMs, i)
    ensures forall i :: 0 <= i < d.attempts - 1 ==> !pass(i).answer.Healthy?
    ensures ok <==> d.attempts > 0 && pass(d.attempts - 1).answer.Healthy?
    ensures !ok ==> !Attempts(pass, start, timeoutMs, d.attempts)
    ensures d.lastGap == LastGap(pass, d.attempts) && d.maxGap == MaxGap(pass, d.attempts)
    ensures d.attempts > 0 ==> d.lastAttemptAfter == Some(pass(d.attempts - 1).startedAt - start)
    ensures d.elapsed == endedAt(if ok then d.attempts - 1 else d.attempts) - start
    ensures timeoutMs.Some? ==> d.expectedAttempts == Some(Ceil(timeoutMs.value, INTERVAL_MS))
    ensures timeoutMs.Some? ==> d.attempts == 0 || d.attempts <= d.expectedAttempts.value
    ensures d.record == LastRecord(pass, d.attempts)
    ensures d.late.Some? <==> !ok && timeoutMs.Some?
    ensures d.late.Some? ==>
      && d.late.value.tcp == tcp
      && (timeoutMs.value >= 0 ==> d.late.value.deficit == d.expectedAttempts.value - d.attempts >= 0)
      && d.late.value.overrun == Max(0, d.elapsed - timeoutMs.value)
      && (pass(d.attempts).goOn ==> d.elapsed >= timeoutMs.value)
      && (d.late.value.delayed <==> (d.maxGap.Some? && d.maxGap.value > 600) || d.late.value.overrun > 600)
  {
    var n, lastGap, maxGap, after, record;
    ok, n, lastGap, maxGap, after, record := Poll(start, timeoutMs, pass, last);
    var expected := if timeoutMs.Some? then Some(Ceil(timeoutMs.value, INTERVAL_MS)) else None;
    if timeoutMs.Some? && n > 0 { AttemptsFit(start, pass, timeoutMs.value, n); }
    var elapsed := endedAt(if ok then n - 1 else n) - start;
    d := Diagnostics(n, expected, lastGap, maxGap, after, elapsed, record, None);
    if !ok && timeoutMs.Some? {
      var overrun := Max(0, elapsed - timeoutMs.value);
      var delayed := (if maxGap.Some? then maxGap.value else 0) > INTERVAL_MS * 3 || overrun > INTERVAL_MS * 3;
      d := d.(late := Some(Lateness(Max(0, expected.value - n), overrun, delayed, tcp)));
    }
  }
}
