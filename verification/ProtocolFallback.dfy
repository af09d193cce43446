// createVLESSBondGeneration under the protocol selector: what the wait for a first
// path has to do with the fallback to V1, and what the supervisor gets.
module ProtocolFallback {
  import opened Prelude
  import opened ProtocolSelector
  import opened FirstPathWait
  import BondSupervisor

  // One factory call: the passes of its wait for a first path, and whether KCP and
  // smux then come up for generation g. A wait that none of its passes decides is
  // ended by its context.
  datatype Setup = Setup(passes: seq<Pass>, g: nat, sessionsComeUp: bool)

  function MadeBy(setup: Setup, protocol: Protocol, paths: int): Made {
    match Result(setup.passes, protocol, paths)
    case Usable => if setup.sessionsComeUp then Made(Some(setup.g), None) else Made(None, Some(OtherProblem))
    case Unavailable => Made(None, Some(V2Unavailable))
    case _ => Made(None, Some(OtherProblem))
  }

  // The attempts of a series of create calls, and the flag after them. calls[k] are
  // the setups that the two factory calls of call k would go through.
  function Run(mode: Mode, calls: seq<(Setup, Setup)>, paths: int): (seq<Attempt>, bool) {
    if calls == [] then ([], false)
    else
      var (before, flag) := Run(mode, calls[..|calls| - 1], paths);
      var (first, second) := calls[|calls| - 1];
      var (now, flag') := Attempts(mode, flag, MadeBy(first, Choose(mode, flag), paths), MadeBy(second, V1, paths));
      (before + now, flag')
  }

  ghost predicate Exhausts(calls: seq<(Setup, Setup)>, k: nat, paths: nat) {
    k < |calls| && exists n :: ExhaustedFirst(calls[k].0.passes, n, paths)
  }

  lemma {:induction false} FlagMeansExhausted(calls: seq<(Setup, Setup)>, paths: nat)
    requires paths >= 1
    ensures RunInv(Auto, Run(Auto, calls, paths).0, Run(Auto, calls, paths).1)
    ensures Run(Auto, calls, paths).1 <==> exists k :: Exhausts(calls, k, paths)
  {
    if calls != [] {
      var last := |calls| - 1;
      var before := calls[..last];
      FlagMeansExhausted(before, paths);
      var (s, flag) := Run(Auto, before, paths);
      var (first, second) := calls[last];
      StepKeeps(Auto, s, flag, MadeBy(first, Choose(Auto, flag), paths), MadeBy(second, V1, paths));
      UnavailableExactly(first.passes, V2, paths);
      UnavailableExactly(first.passes, V1, paths);
      assert forall k :: 0 <= k < last ==> (Exhausts(before, k, paths) <==> Exhausts(calls, k, paths));
      assert Exhausts(calls, last, paths) <==> exists n :: ExhaustedFirst(first.passes, n, paths);
    }
  }

  // In auto mode V1 is tried exactly if in some call, before any active path,
  // cancellation or rejection, all expected paths failed or the grace ran out.
  lemma FallbackExactly(calls: seq<(Setup, Setup)>, paths: nat)
    requires paths >= 1
    ensures var s := Run(Auto, calls, paths).0;
            (exists i :: 0 <= i < |s| && s[i].protocol == V1) <==> exists k :: Exhausts(calls, k, paths)
  {
    FlagMeansExhausted(calls, paths);
    var (s, flag) := Run(Auto, calls, paths);
    if flag {
      assert s[|s| - 1].protocol == V1;
    }
  }

  // ---- The supervisor on top ----------------------------------------------

  // What one create call returns, and the flag it leaves.
  function Created(mode: Mode, flag: bool, first: Setup, second: Setup, paths: int): (Made, bool) {
    var (attempts, flag') :=
      Attempts(mode, flag, MadeBy(first, Choose(mode, flag), paths), MadeBy(second, V1, paths));
    (attempts[|attempts| - 1].made, flag')
  }

  // A setup under this protocol gets an active path before anything else decides its
  // wait, and its sessions come up.
  ghost predicate ComesUp(setup: Setup, protocol: Protocol, paths: nat) {
    && setup.sessionsComeUp
    && exists n :: 0 <= n < |setup.passes| && QuietSoFar(setup.passes, n, protocol, paths)
                   && setup.passes[n].countBefore > 0
  }

  lemma MadeIfUp(setup: Setup, protocol: Protocol, paths: nat)
    requires paths >= 1
    ensures MadeBy(setup, protocol, paths).generation == if ComesUp(setup, protocol, paths) then Some(setup.g) else None
  {
    UsableExactly(setup.passes, protocol, paths);
  }

  // A create call yields the generation of the setup it ends with, exactly if that
  // comes up: the first, under the mode's protocol, unless in auto mode V2 is probed
  // and runs out, and then the second, under V1.
  lemma CreateYieldsGeneration(mode: Mode, flag: bool, first: Setup, second: Setup, paths: nat)
    requires paths >= 1
    ensures var made := Created(mode, flag, first, second, paths).0;
            made.generation ==
            if mode == Auto && !flag && exists n :: ExhaustedFirst(first.passes, n, paths) then
              if ComesUp(second, V1, paths) then Some(second.g) else None
            else
              var protocol := if mode == OnlyV1 || (mode == Auto && flag) then V1 else V2;
              if ComesUp(first, protocol, paths) then Some(first.g) else None
  {
    UnavailableExactly(first.passes, V2, paths);
    MadeIfUp(first, Choose(mode, flag), paths);
    MadeIfUp(second, V1, paths);
  }

  // A step of the supervisor with the setups its factory would go through, or of a
  // waiter.
  datatype Drive =
    | Supervise(first: Setup, second: Setup, cancelled: bool)
    | Wait(l: BondSupervisor.Label)

  // The supervisor calls its factory, which is the selector's create, at the top of
  // its loop unless its context is done.
  function LabelOf(mode: Mode, flag: bool, s: BondSupervisor.State, d: Drive, paths: int)
    : (BondSupervisor.Label, bool)
  {
    match d
    case Supervise(first, second, cancelled) =>
      if s.pc == BondSupervisor.Top && !cancelled then
        var (made, flag') := Created(mode, flag, first, second, paths);
        (BondSupervisor.Supervise(made.generation.Some?, made.problem.Some?, cancelled), flag')
      else (BondSupervisor.Supervise(false, false, cancelled), flag)
    case Wait(l) => (if l.Supervise? then BondSupervisor.CallWait else l, flag)
  }

  // The supervisor's run, and the selector's flag after it.
  function Driven(mode: Mode, ds: seq<Drive>, paths: int): (seq<BondSupervisor.Label>, bool) {
    if ds == [] then ([], false)
    else
      var (ls, flag) := Driven(mode, ds[..|ds| - 1], paths);
      var (l, flag') := LabelOf(mode, flag, BondSupervisor.Exec(ls), ds[|ds| - 1], paths);
      (ls + [l], flag')
  }

  // A create call returns a generation or an error, whichever attempt it ends with.
  lemma CreatedIsOne(mode: Mode, flag: bool, first: Setup, second: Setup, paths: int)
    ensures var made := Created(mode, flag, first, second, paths).0;
            made.generation.Some? <==> made.problem == None
  {
  }

  lemma {:induction false} NeverBoth(mode: Mode, ds: seq<Drive>, paths: int)
    ensures !BondSupervisor.EverReturnedBoth(Driven(mode, ds, paths).0)
  {
    if ds != [] {
      NeverBoth(mode, ds[..|ds| - 1], paths);
      var (ls, flag) := Driven(mode, ds[..|ds| - 1], paths);
      var d := ds[|ds| - 1];
      if d.Supervise? {
        CreatedIsOne(mode, flag, d.first, d.second, paths);
      }
      var l := LabelOf(mode, flag, BondSupervisor.Exec(ls), d, paths).0;
      assert (ls + [l])[..|ls|] == ls;
    }
  }

  // In every run of the supervisor over the selector and the generation setup,
  // whatever the setups go through: at most one generation is live, none is cleaned
  // up twice, and between generations every one so far has been cleaned up.
  lemma SupervisedGenerationsAreCleaned(mode: Mode, ds: seq<Drive>, paths: int)
    ensures var s := BondSupervisor.Exec(Driven(mode, ds, paths).0);
            && (forall g, h :: 0 <= g < |s.cleanups| && 0 <= h < |s.cleanups| && s.cleanups[g] == s.cleanups[h] == 0 ==>
                  g == h)
            && (forall g :: 0 <= g < |s.cleanups| ==> s.cleanups[g] <= 1)
            && (s.pc in {BondSupervisor.Top, BondSupervisor.Retrying, BondSupervisor.Exited} ==>
                  forall g :: 0 <= g < |s.cleanups| ==> s.cleanups[g] == 1)
  {
    var ls := Driven(mode, ds, paths).0;
    NeverBoth(mode, ds, paths);
    BondSupervisor.DroppedMeansBoth(ls);
    BondSupervisor.OneGenerationAtATime(ls);
  }
}
