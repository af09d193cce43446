// waitForFirstBondPath: when a new generation is usable, and when V2 counts as
// unavailable.
module FirstPathWait {
  import opened ProtocolSelector

  // What one pass of the select loop received.
  datatype Event =
    | Cancelled
    | StateChanged
    | GraceOver
    | SetupFailed(path: int, rejected: bool)

  // One pass: what Count said at its top, what was received, and what Count said
  // when the event was judged.
  datatype Pass = Pass(countBefore: nat, event: Event, countAfter: nat)

  datatype Outcome = Usable | ContextDone | Rejection | Unavailable | BadPathCount | Waiting

  // ---- What each pass decides, from the whole history ----------------------

  // A path failed to set up, without the server rejecting it.
  predicate Failure(pass: Pass) {
    pass.event.SetupFailed? && !pass.event.rejected
  }

  function FailedPaths(passes: seq<Pass>): set<int> {
    set i | 0 <= i < |passes| && Failure(passes[i]) :: passes[i].event.path
  }

  predicate SomeFailure(passes: seq<Pass>) {
    exists i :: 0 <= i < |passes| && Failure(passes[i])
  }

  // The fallback timer is started by the first failure and fires once.
  predicate GraceRunning(passes: seq<Pass>) {
    && SomeFailure(passes)
    && forall i, j :: 0 <= i < j < |passes| && Failure(passes[i]) ==> !passes[j].event.GraceOver?
  }

  function Verdict(passes: seq<Pass>, i: nat, protocol: Protocol, expected: nat): Outcome
    requires i < |passes|
  {
    var pass := passes[i];
    if pass.countBefore > 0 then Usable
    else match pass.event
      case Cancelled => ContextDone
      case StateChanged => Waiting
      case GraceOver =>
        if protocol == V2 && GraceRunning(passes[..i]) && pass.countAfter == 0 then Unavailable else Waiting
      case SetupFailed(_, rejected) =>
        if rejected then Rejection
        else if protocol == V2 && |FailedPaths(passes[..i + 1])| >= expected && pass.countAfter == 0 then Unavailable
        else Waiting
  }

  // ---- The loop -----------------------------------------------------------

  // What the passes so far amount to: the verdict of the first that decides.
  function Result(passes: seq<Pass>, protocol: Protocol, expected: int): Outcome {
    if expected < 1 then BadPathCount
    else if passes == [] then Waiting
    else
      var before := Result(passes[..|passes| - 1], protocol, expected);
      if before != Waiting then before else Verdict(passes, |passes| - 1, protocol, expected)
  }

  // One pass of the select loop over its three variables.
  method OnePass(ghost passes: seq<Pass>, ghost n: nat, pass: Pass, protocol: Protocol, expected: int,
                 failed: set<int>, timerStarted: bool, timerRunning: bool)
    returns (outcome: Outcome, failed': set<int>, timerStarted': bool, timerRunning': bool)
    requires n < |passes| && pass == passes[n] && expected >= 1
    requires protocol == V2 ==> Tracks(passes[..n], failed, timerStarted, timerRunning)
    ensures outcome == Verdict(passes, n, protocol, expected)
    ensures protocol == V2 && outcome == Waiting ==> Tracks(passes[..n + 1], failed', timerStarted', timerRunning')
  {
    failed', timerStarted', timerRunning' := failed, timerStarted, timerRunning;
    if pass.countBefore > 0 {
      return Usable, failed', timerStarted', timerRunning';
    }
    TracksStep(passes, n, failed, timerStarted, timerRunning);
    outcome := Waiting;
    match pass.event {
      case Cancelled =>
        outcome := ContextDone;
      case StateChanged =>
      case GraceOver =>
        if timerRunning {
          timerRunning' := false;
          if protocol == V2 && pass.countAfter == 0 {
            outcome := Unavailable;
          }
        }
      case SetupFailed(path, rejected) =>
        if rejected {
          outcome := Rejection;
        } else if protocol == V2 {
          failed' := failed + {path};
          if !timerStarted {
            timerStarted', timerRunning' := true, true;
          }
          if |failed'| >= expected && pass.countAfter == 0 {
            outcome := Unavailable;
          }
        }
    }
  }

  // Runs over the passes until one decides; Waiting if none of them does.
  method WaitForFirstPath(passes: seq<Pass>, protocol: Protocol, expected: int) returns (outcome: Outcome)
    ensures outcome == Result(passes, protocol, expected)
  {
    if expected < 1 {
      return BadPathCount;
    }
    var failed: set<int> := {};
    var timerStarted, timerRunning := false, false;
    var n := 0;
    while n < |passes|
      invariant 0 <= n <= |passes|
      invariant Result(passes[..n], protocol, expected) == Waiting
      invariant protocol == V2 ==> Tracks(passes[..n], failed, timerStarted, timerRunning)
    {
      outcome, failed, timerStarted, timerRunning :=
        OnePass(passes, n, passes[n], protocol, expected, failed, timerStarted, timerRunning);
      ResultStep(passes, n, protocol, expected);
      n := n + 1;
      if outcome != Waiting {
        ResultStays(passes[..n], passes[n..], protocol, expected);
        assert passes == passes[..n] + passes[n..];
        return;
      }
    }
    assert passes[..n] == passes;
    outcome := Waiting;
  }

  // A verdict looks at the passes up to its own.
  lemma VerdictOfPrefix(passes: seq<Pass>, k: nat, i: nat, protocol: Protocol, expected: nat)
    requires i < k <= |passes|
    ensures Verdict(passes[..k], i, protocol, expected) == Verdict(passes, i, protocol, expected)
  {
    assert passes[..k][..i] == passes[..i] && passes[..k][..i + 1] == passes[..i + 1];
  }

  lemma ResultStep(passes: seq<Pass>, n: nat, protocol: Protocol, expected: int)
    requires n < |passes| && expected >= 1 && Result(passes[..n], protocol, expected) == Waiting
    ensures Result(passes[..n + 1], protocol, expected) == Verdict(passes, n, protocol, expected)
  {
    assert passes[..n + 1][..n] == passes[..n];
    VerdictOfPrefix(passes, n + 1, n, protocol, expected);
  }

  // Later passes change nothing.
  lemma {:induction false} ResultStays(passes: seq<Pass>, more: seq<Pass>, protocol: Protocol, expected: int)
    requires Result(passes, protocol, expected) != Waiting
    ensures Result(passes + more, protocol, expected) == Result(passes, protocol, expected)
  {
    if more == [] {
      assert passes + more == passes;
    } else {
      ResultStays(passes, more[..|more| - 1], protocol, expected);
      assert (passes + more)[..|passes + more| - 1] == passes + more[..|more| - 1];
    }
  }

  // The loop's variables say what the passes so far amount to.
  ghost predicate Tracks(passes: seq<Pass>, failed: set<int>, timerStarted: bool, timerRunning: bool) {
    failed == FailedPaths(passes) && timerStarted == SomeFailure(passes) && timerRunning == GraceRunning(passes)
  }

  lemma TracksStep(passes: seq<Pass>, n: nat, failed: set<int>, timerStarted: bool, timerRunning: bool)
    requires n < |passes|
    ensures Tracks(passes[..n], failed, timerStarted, timerRunning) ==>
              if Failure(passes[n]) then
                Tracks(passes[..n + 1], failed + {passes[n].event.path}, true, !timerStarted || timerRunning)
              else
                Tracks(passes[..n + 1], failed, timerStarted, timerRunning && !passes[n].event.GraceOver?)
  {
    var p, q := passes[..n], passes[..n + 1];
    assert q == p + [passes[n]];
    if Failure(passes[n]) {
      assert Failure(q[n]);
    }
    assert forall i :: 0 <= i < n ==> q[i] == p[i];
    if SomeFailure(p) {
      var i :| 0 <= i < |p| && Failure(p[i]);
      assert Failure(q[i]);
    }
  }

  // ---- What the results mean ----------------------------------------------

  // No active path, no cancellation and no rejection in this pass.
  predicate Undisturbed(pass: Pass) {
    pass.countBefore == 0 && !pass.event.Cancelled? && !(pass.event.SetupFailed? && pass.event.rejected)
  }

  // V2 runs out in this pass: the last expected path fails, or the running grace
  // ends, and there is still no active path.
  ghost predicate Exhausted(passes: seq<Pass>, n: nat, expected: nat)
    requires n < |passes|
  {
    && passes[n].countAfter == 0
    && (|| (Failure(passes[n]) && |FailedPaths(passes[..n + 1])| >= expected)
        || (passes[n].event.GraceOver? && GraceRunning(passes[..n])))
  }

  ghost predicate ExhaustedFirst(passes: seq<Pass>, n: nat, expected: nat) {
    && n < |passes| && Exhausted(passes, n, expected)
    && (forall i :: 0 <= i <= n ==> Undisturbed(passes[i]))
    && (forall i :: 0 <= i < n ==> !Exhausted(passes, i, expected))
  }

  // Nothing decides in this pass.
  ghost predicate Undecided(passes: seq<Pass>, i: nat, protocol: Protocol, expected: nat)
    requires i < |passes|
  {
    Undisturbed(passes[i]) && !(protocol == V2 && Exhausted(passes, i, expected))
  }

  lemma VerdictMeans(passes: seq<Pass>, i: nat, protocol: Protocol, expected: nat)
    requires i < |passes|
    ensures var v := Verdict(passes, i, protocol, expected);
            && (v == Usable <==> passes[i].countBefore > 0)
            && (v == ContextDone <==> passes[i].countBefore == 0 && passes[i].event.Cancelled?)
            && (v == Rejection <==>
                  passes[i].countBefore == 0 && passes[i].event.SetupFailed? && passes[i].event.rejected)
            && (v == Unavailable <==> Undisturbed(passes[i]) && protocol == V2 && Exhausted(passes, i, expected))
            && (v == Waiting <==> Undecided(passes, i, protocol, expected))
  {
  }

  ghost predicate QuietSoFar(passes: seq<Pass>, n: nat, protocol: Protocol, expected: nat) {
    n <= |passes| && forall i :: 0 <= i < n ==> Undecided(passes, i, protocol, expected)
  }

  // The wait goes on exactly as long as no pass has an active path, a cancellation or
  // a rejection, and V2 has not run out.
  lemma {:induction false} WaitingExactly(passes: seq<Pass>, n: nat, protocol: Protocol, expected: nat)
    requires n <= |passes| && expected >= 1
    ensures Result(passes[..n], protocol, expected) == Waiting <==> QuietSoFar(passes, n, protocol, expected)
  {
    if n > 0 {
      WaitingExactly(passes, n - 1, protocol, expected);
      assert passes[..n][..n - 1] == passes[..n - 1];
      VerdictOfPrefix(passes, n, n - 1, protocol, expected);
      VerdictMeans(passes, n - 1, protocol, expected);
    }
  }

  // Pass n is the first to decide, and this is how.
  lemma DecidesAt(passes: seq<Pass>, n: nat, protocol: Protocol, expected: nat)
    requires n < |passes| && expected >= 1 && QuietSoFar(passes, n, protocol, expected)
    ensures Verdict(passes, n, protocol, expected) != Waiting ==>
              Result(passes, protocol, expected) == Verdict(passes, n, protocol, expected)
  {
    WaitingExactly(passes, n, protocol, expected);
    ResultStep(passes, n, protocol, expected);
    if Verdict(passes, n, protocol, expected) != Waiting {
      ResultStays(passes[..n + 1], passes[n + 1..], protocol, expected);
      assert passes == passes[..n + 1] + passes[n + 1..];
    }
  }

  // The wait succeeds exactly if some pass finds an active path before anything else
  // decides,
  lemma UsableExactly(passes: seq<Pass>, protocol: Protocol, expected: nat)
    requires expected >= 1
    ensures Result(passes, protocol, expected) == Usable <==>
              exists n :: 0 <= n < |passes| && QuietSoFar(passes, n, protocol, expected) && passes[n].countBefore > 0
  {
    if Result(passes, protocol, expected) == Usable {
      var n := DecidingPass(passes, protocol, expected);
      VerdictMeans(passes, n, protocol, expected);
      WaitingExactly(passes, n, protocol, expected);
    }
    if exists n :: 0 <= n < |passes| && QuietSoFar(passes, n, protocol, expected) && passes[n].countBefore > 0 {
      var n :| 0 <= n < |passes| && QuietSoFar(passes, n, protocol, expected) && passes[n].countBefore > 0;
      VerdictMeans(passes, n, protocol, expected);
      DecidesAt(passes, n, protocol, expected);
    }
  }

  // and ends with its context exactly if a cancellation comes first.
  lemma ContextDoneExactly(passes: seq<Pass>, protocol: Protocol, expected: nat)
    requires expected >= 1
    ensures Result(passes, protocol, expected) == ContextDone <==>
              exists n :: 0 <= n < |passes| && QuietSoFar(passes, n, protocol, expected)
                          && passes[n].countBefore == 0 && passes[n].event.Cancelled?
  {
    if Result(passes, protocol, expected) == ContextDone {
      var n := DecidingPass(passes, protocol, expected);
      VerdictMeans(passes, n, protocol, expected);
      WaitingExactly(passes, n, protocol, expected);
    }
    if exists n :: 0 <= n < |passes| && QuietSoFar(passes, n, protocol, expected)
                   && passes[n].countBefore == 0 && passes[n].event.Cancelled? {
      var n :| 0 <= n < |passes| && QuietSoFar(passes, n, protocol, expected)
               && passes[n].countBefore == 0 && passes[n].event.Cancelled?;
      VerdictMeans(passes, n, protocol, expected);
      DecidesAt(passes, n, protocol, expected);
    }
  }

  // A path count below 1 is an error whatever the passes, and the only such error.
  lemma BadPathCountExactly(passes: seq<Pass>, protocol: Protocol, expected: int)
    ensures Result(passes, protocol, expected) == BadPathCount <==> expected < 1
  {
    if expected >= 1 && Result(passes, protocol, expected) != Waiting {
      var n := DecidingPass(passes, protocol, expected);
      VerdictMeans(passes, n, protocol, expected);
    }
  }

  lemma UnavailableMeansExhausted(passes: seq<Pass>, protocol: Protocol, expected: nat) returns (n: nat)
    requires expected >= 1 && Result(passes, protocol, expected) == Unavailable
    ensures protocol == V2 && ExhaustedFirst(passes, n, expected)
  {
    n := DecidingPass(passes, protocol, expected);
    VerdictMeans(passes, n, protocol, expected);
    WaitingExactly(passes, n, protocol, expected);
    forall i | 0 <= i < n
      ensures Undisturbed(passes[i]) && !Exhausted(passes, i, expected)
    {
      assert Undecided(passes, i, protocol, expected);
    }
  }

  lemma ExhaustedMeansUnavailable(passes: seq<Pass>, n: nat, expected: nat)
    requires expected >= 1 && ExhaustedFirst(passes, n, expected)
    ensures Result(passes, V2, expected) == Unavailable
  {
    VerdictMeans(passes, n, V2, expected);
    DecidesAt(passes, n, V2, expected);
  }

  // V2 is called unavailable exactly when, before any active path, cancellation or
  // rejection, all expected paths have failed or the grace that the first failure
  // started has run out. V1 never is.
  lemma UnavailableExactly(passes: seq<Pass>, protocol: Protocol, expected: nat)
    requires expected >= 1
    ensures Result(passes, protocol, expected) == Unavailable <==>
              protocol == V2 && exists n :: ExhaustedFirst(passes, n, expected)
  {
    if Result(passes, protocol, expected) == Unavailable {
      var n := UnavailableMeansExhausted(passes, protocol, expected);
    }
    if protocol == V2 && exists n :: ExhaustedFirst(passes, n, expected) {
      var n :| ExhaustedFirst(passes, n, expected);
      ExhaustedMeansUnavailable(passes, n, expected);
    }
  }

  lemma {:induction false} DecidingPass(passes: seq<Pass>, protocol: Protocol, expected: nat) returns (n: nat)
    requires expected >= 1 && Result(passes, protocol, expected) != Waiting
    ensures n < |passes| && Result(passes[..n], protocol, expected) == Waiting
    ensures Verdict(passes, n, protocol, expected) == Result(passes, protocol, expected)
  {
    var last := |passes| - 1;
    if Result(passes[..last], protocol, expected) == Waiting {
      n := last;
    } else {
      n := DecidingPass(passes[..last], protocol, expected);
      assert passes[..last][..n] == passes[..n];
      VerdictOfPrefix(passes, last, n, protocol, expected);
    }
  }

  // A rejection ends an undecided wait as a rejection whatever comes after it, under
  // either protocol.
  lemma RejectionIsFinal(before: seq<Pass>, pass: Pass, more: seq<Pass>, protocol: Protocol, expected: nat)
    requires expected >= 1 && Result(before, protocol, expected) == Waiting
    requires pass.countBefore == 0 && pass.event.SetupFailed? && pass.event.rejected
    ensures Result(before + [pass] + more, protocol, expected) == Rejection
  {
    assert (before + [pass])[..|before|] == before;
    ResultStays(before + [pass], more, protocol, expected);
  }

  // The last expected path failed in this pass or an earlier one, and an active path
  // kept that from deciding the wait.
  ghost predicate Outlived(passes: seq<Pass>, i: nat, expected: nat) {
    && i < |passes| && Failure(passes[i]) && |FailedPaths(passes[..i + 1])| >= expected
    && passes[i].countAfter > 0
  }

  lemma FailedStep(passes: seq<Pass>, n: nat)
    requires n < |passes|
    ensures FailedPaths(passes[..n + 1]) ==
            FailedPaths(passes[..n]) + if Failure(passes[n]) then {passes[n].event.path} else {}
  {
    TracksStep(passes, n, FailedPaths(passes[..n]), SomeFailure(passes[..n]), GraceRunning(passes[..n]));
  }

  lemma {:induction false} FailedGrows(passes: seq<Pass>, i: nat, n: nat)
    requires i <= n <= |passes|
    ensures |FailedPaths(passes[..i])| <= |FailedPaths(passes[..n])|
  {
    if i < n {
      FailedGrows(passes, i, n - 1);
      FailedStep(passes, n - 1);
    }
  }

  // If all expected paths have failed and nothing was decided, some failure found an
  // active path.
  lemma {:induction false} AllFailedOutlived(passes: seq<Pass>, n: nat, expected: nat) returns (i: nat)
    requires n <= |passes| && expected >= 1 && |FailedPaths(passes[..n])| >= expected
    requires forall k :: 0 <= k < n ==> !Exhausted(passes, k, expected)
    ensures i < n && Outlived(passes, i, expected)
  {
    assert passes[..0] == [] && FailedPaths([]) == {};
    if |FailedPaths(passes[..n - 1])| >= expected {
      i := AllFailedOutlived(passes, n - 1, expected);
    } else {
      FailedStep(passes, n - 1);
      assert !Exhausted(passes, n - 1, expected);
      i := n - 1;
    }
  }

  // When V2 is given up, every expected path has failed exactly if it is a failure
  // that decides, or the last of them failed earlier while a path was active.
  lemma EveryPathFailedExactly(passes: seq<Pass>, n: nat, expected: nat)
    requires expected >= 1 && ExhaustedFirst(passes, n, expected)
    ensures |FailedPaths(passes[..n + 1])| >= expected <==>
              Failure(passes[n]) || exists i :: 0 <= i < n && Outlived(passes, i, expected)
  {
    if exists i :: 0 <= i < n && Outlived(passes, i, expected) {
      var i :| 0 <= i < n && Outlived(passes, i, expected);
      FailedGrows(passes, i + 1, n + 1);
    }
    if !Failure(passes[n]) && |FailedPaths(passes[..n + 1])| >= expected {
      FailedStep(passes, n);
      var i := AllFailedOutlived(passes, n, expected);
    }
  }

  // V2 may be given up before every path has failed: of two paths one has, and the
  // other has not reported when the grace ends.
  lemma UnavailableBeforeEveryPathFailed()
    ensures var passes := [Pass(0, SetupFailed(0, false), 0), Pass(0, GraceOver, 0)];
            Result(passes, V2, 2) == Unavailable && FailedPaths(passes) == {0}
  {
    var passes := [Pass(0, SetupFailed(0, false), 0), Pass(0, GraceOver, 0)];
    assert Failure(passes[..1][0]);
    assert FailedPaths(passes) == {0};
    assert FailedPaths(passes[..1]) == {0};
    assert passes[..2] == passes;
    assert ExhaustedFirst(passes, 1, 2);
    UnavailableExactly(passes, V2, 2);
  }
}
