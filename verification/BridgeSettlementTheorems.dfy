/** How each request is settled: by the first message under its name, or by its timeout, whichever comes first. */
module BridgeSettlementTheorems {
  import opened BridgeModel
  import opened BridgeTheorems

  /** A timeout rejects its own request, which was waiting, and touches no other. */
  lemma TimeoutRejects(run: seq<Event>, i: nat)
    requires IsRun(run) && Enabled(After(run), TimedOut(i))
    ensures var s, t := After(run), Step(After(run), TimedOut(i));
      && i < |s.requests| && s.requests[i].settlings == []
      && t.requests == s.requests[i := s.requests[i].(settlings := [Rejected])]
  {
    var s := After(run);
    RunKeeps(run);
    assert RequestOk(s, i);
    assert s.requests[i].settlings + [Rejected] == [Rejected];
  }

  /** The other events leave every request as it is; a request call adds one that waits. */
  lemma OthersSettleNothing(s: State, e: Event)
    requires Enabled(s, e) && !e.TimedOut? && !e.MessageReceived?
    ensures s.requests <= Step(s, e).requests
    ensures |Step(s, e).requests| == |s.requests| + if e.RequestCalled? then 1 else 0
    ensures e.RequestCalled? ==> Step(s, e).requests[|s.requests|].settlings == []
  {
  }

  // ---------- What settles a request, read off the events ----------

  /** The event ends the wait of a request with this number and callback name. */
  predicate Ends(e: Event, i: nat, name: string) {
    e == TimedOut(i) || (e.MessageReceived? && e.name == name)
  }

  function SettlingOf(e: Event): Settling
    requires e.TimedOut? || e.MessageReceived?
  {
    if e.TimedOut? then Rejected else Resolved(e.data)
  }

  /** How the first event to end the wait of request i settles it; nothing counts before it is made. */
  function Verdict(run: seq<Event>, i: nat, name: string): seq<Settling>
    requires IsRun(run)
  {
    if run == [] then []
    else
      var init, last := run[..|run| - 1], run[|run| - 1];
      var before := Verdict(init, i, name);
      if before == [] && i < |After(init).requests| && Ends(last, i, name) then [SettlingOf(last)] else before
  }

  lemma {:induction false} NotMadeNotSettled(run: seq<Event>, i: nat, name: string)
    requires IsRun(run) && i >= |After(run).requests|
    ensures Verdict(run, i, name) == []
  {
    if run == [] {
    } else {
      var init, last := run[..|run| - 1], run[|run| - 1];
      RequestsStay(init, last);
      NotMadeNotSettled(init, i, name);
    }
  }

  lemma RequestsStay(init: seq<Event>, last: Event)
    requires IsRun(init) && Enabled(After(init), last)
    ensures var s, t := After(init), Step(After(init), last);
      && |s.requests| <= |t.requests|
      && (last.TimedOut? || last.MessageReceived? ==> |s.requests| == |t.requests|)
      && forall i :: 0 <= i < |s.requests| ==> t.requests[i].callbackName == s.requests[i].callbackName
  {
    var s := After(init);
    RunKeeps(init);
    match last
    case TimedOut(i) => TimeoutRejects(init, i);
    case MessageReceived(name, data, order) =>
      MessageAddsNone(init, name, data, order);
      forall i | 0 <= i < |s.requests|
        ensures Step(s, last).requests[i].callbackName == s.requests[i].callbackName
      {
        ReplySettlesItsOwn(init, name, data, order, i);
      }
    case _ => OthersSettleNothing(s, last);
  }

  lemma MessageAddsNone(run: seq<Event>, name: string, data: string, order: seq<Callback>)
    requires IsRun(run) && Enabled(After(run), MessageReceived(name, data, order))
    ensures |Step(After(run), MessageReceived(name, data, order)).requests| == |After(run).requests|
  {
    RunKeeps(run);
    var s := After(run);
    forall k: nat | Reply(k) in order ensures k < |s.requests| && s.requests[k].settlings == [] {
      MessageIsFor(s, name, order, k);
    }
    BroadcastSettles(s, order, data);
  }

  /** Over every run, each request is settled as its first ending event says, and only then. */
  lemma {:induction false} SettledAsTold(run: seq<Event>, i: nat)
    requires IsRun(run) && i < |After(run).requests|
    ensures After(run).requests[i].settlings == Verdict(run, i, After(run).requests[i].callbackName)
  {
    var init, last := run[..|run| - 1], run[|run| - 1];
    var s, t := After(init), After(run);
    var name := t.requests[i].callbackName;
    RequestsStay(init, last);
    if i < |s.requests| {
      SettledAsTold(init, i);
      match last
      case TimedOut(k) => TimeoutRejects(init, k);
      case MessageReceived(n, data, order) => ReplySettlesItsOwn(init, n, data, order, i);
      case _ => OthersSettleNothing(s, last);
    } else {
      NotMadeNotSettled(init, i, name);
      OthersSettleNothing(s, last);
    }
  }

  // ---------- The first event that ends the wait ----------

  /** At k the request has been made, and nothing that ends its wait has come since. */
  ghost predicate FirstEnd(run: seq<Event>, i: nat, name: string, k: nat) {
    && k < |run| && IsRun(run[..k]) && i < |After(run[..k]).requests| && Ends(run[k], i, name)
    && NoEndBefore(run, i, name, k)
  }

  ghost predicate NoEndBefore(run: seq<Event>, i: nat, name: string, k: nat)
    requires k <= |run|
  {
    forall j :: 0 <= j < k && IsRun(run[..j]) && i < |After(run[..j]).requests| ==> !Ends(run[j], i, name)
  }

  lemma {:induction false} NoVerdictIff(run: seq<Event>, i: nat, name: string)
    requires IsRun(run)
    ensures Verdict(run, i, name) == [] <==> NoEndBefore(run, i, name, |run|)
  {
    if run == [] {
    } else {
      var n := |run| - 1;
      NoVerdictIff(run[..n], i, name);
      OneMoreEnd(run, i, name);
    }
  }

  lemma OneMoreEnd(run: seq<Event>, i: nat, name: string)
    requires IsRun(run) && run != []
    ensures var n := |run| - 1;
      NoEndBefore(run, i, name, |run|) <==>
      NoEndBefore(run[..n], i, name, n) && (i < |After(run[..n]).requests| ==> !Ends(run[n], i, name))
  {
    var n := |run| - 1;
    forall j | 0 <= j < n ensures run[..n][..j] == run[..j] && run[..n][j] == run[j] {}
    assert NoEndBefore(run, i, name, n) <==> NoEndBefore(run[..n], i, name, n);
  }

  lemma {:induction false} VerdictIsFirst(run: seq<Event>, i: nat, name: string) returns (k: nat)
    requires IsRun(run) && Verdict(run, i, name) != []
    ensures FirstEnd(run, i, name, k) && Verdict(run, i, name) == [SettlingOf(run[k])]
  {
    var n := |run| - 1;
    if Verdict(run[..n], i, name) == [] {
      k := n;
      NoVerdictIff(run[..n], i, name);
    } else {
      k := VerdictIsFirst(run[..n], i, name);
      assert run[..n][..k] == run[..k];
    }
    forall j | 0 <= j < k ensures run[..n][..j] == run[..j] && run[..n][j] == run[j] {}
  }

  lemma {:induction false} FirstIsVerdict(run: seq<Event>, i: nat, name: string, k: nat)
    requires IsRun(run) && FirstEnd(run, i, name, k)
    ensures Verdict(run, i, name) == [SettlingOf(run[k])]
  {
    var n := |run| - 1;
    forall j | 0 <= j <= k ensures run[..n][..j] == run[..j] {}
    forall j | 0 <= j < k ensures run[..n][j] == run[j] {}
    if k == n {
      NoVerdictIff(run[..n], i, name);
    } else {
      FirstIsVerdict(run[..n], i, name, k);
    }
  }

  ghost predicate SettledBy(run: seq<Event>, i: nat, name: string, k: nat, x: Settling) {
    FirstEnd(run, i, name, k) && SettlingOf(run[k]) == x
  }

  lemma VerdictIff(run: seq<Event>, i: nat, name: string, x: Settling)
    requires IsRun(run)
    ensures Verdict(run, i, name) == [x] <==> exists k: nat :: SettledBy(run, i, name, k, x)
  {
    if Verdict(run, i, name) == [x] {
      var k := VerdictIsFirst(run, i, name);
      assert SettledBy(run, i, name, k, x);
    }
    forall k: nat | SettledBy(run, i, name, k, x) ensures Verdict(run, i, name) == [x] {
      FirstIsVerdict(run, i, name, k);
    }
  }

  /** Over every run a request is settled by exactly the first event after its call that ends its wait. */
  lemma SettledIff(run: seq<Event>, i: nat, x: Settling)
    requires IsRun(run) && i < |After(run).requests|
    ensures var r := After(run).requests[i];
      r.settlings == [x] <==> exists k: nat :: SettledBy(run, i, r.callbackName, k, x)
  {
    SettledAsTold(run, i);
    VerdictIff(run, i, After(run).requests[i].callbackName, x);
  }

  lemma {:induction false} PrefixIsRun(run: seq<Event>, k: nat)
    requires IsRun(run) && k < |run|
    ensures IsRun(run[..k]) && Enabled(After(run[..k]), run[k])
  {
    var n := |run| - 1;
    if k < n {
      PrefixIsRun(run[..n], k);
      assert run[..n][..k] == run[..k];
    }
  }

  lemma {:induction false} NameStays(run: seq<Event>, k: nat, i: nat)
    requires IsRun(run) && k <= |run| && IsRun(run[..k]) && i < |After(run[..k]).requests|
    ensures i < |After(run).requests| && After(run).requests[i].callbackName == After(run[..k]).requests[i].callbackName
  {
    var n := |run| - 1;
    if k == |run| {
      assert run[..k] == run;
    } else {
      assert run[..n][..k] == run[..k];
      NameStays(run[..n], k, i);
      RequestsStay(run[..n], run[n]);
    }
  }

  lemma TimeoutIsFirst(run: seq<Event>, i: nat, k: nat)
    requires IsRun(run) && i < |After(run).requests| && k < |run| && run[k] == TimedOut(i)
    ensures SettledBy(run, i, After(run).requests[i].callbackName, k, Rejected)
  {
    var name := After(run).requests[i].callbackName;
    PrefixIsRun(run, k);
    TimeoutRejects(run[..k], i);
    NameStays(run, k, i);
    SettledAsTold(run[..k], i);
    NoVerdictIff(run[..k], i, name);
    forall j | 0 <= j < k ensures run[..k][..j] == run[..j] && run[..k][j] == run[j] {}
  }

  /** A timeout that fires is always the first, so a request is rejected exactly when its timeout has fired. */
  lemma RejectedIff(run: seq<Event>, i: nat)
    requires IsRun(run) && i < |After(run).requests|
    ensures After(run).requests[i].settlings == [Rejected] <==> TimedOut(i) in run
  {
    var name := After(run).requests[i].callbackName;
    SettledIff(run, i, Rejected);
    if After(run).requests[i].settlings == [Rejected] {
      var k: nat :| SettledBy(run, i, name, k, Rejected);
      assert run[k] == TimedOut(i);
    }
    if TimedOut(i) in run {
      var k: nat :| k < |run| && run[k] == TimedOut(i);
      TimeoutIsFirst(run, i, k);
    }
  }
}
