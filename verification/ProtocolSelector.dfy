// vlessBondProtocolSelector: probing V2 and remembering a fallback to V1.
module ProtocolSelector {
  import opened Prelude

  datatype Mode = Auto | OnlyV1 | OnlyV2

  datatype Protocol = V1 | V2

  datatype Problem = V2Unavailable | OtherProblem

  // What a generation factory returns: a generation, an error, or both.
  datatype Made = Made(generation: Option<nat>, problem: Option<Problem>)

  datatype Attempt = Attempt(protocol: Protocol, made: Made)

  function Choose(mode: Mode, legacyV1: bool): Protocol {
    match mode
    case OnlyV1 => V1
    case OnlyV2 => V2
    case Auto => if legacyV1 then V1 else V2
  }

  predicate FallsBack(mode: Mode, attempt: Attempt) {
    mode == Auto && attempt.protocol == V2 && attempt.made.problem == Some(V2Unavailable)
  }

  // One create call: the attempts it makes and the flag it leaves. first and
  // second are what the factory would return.
  function Attempts(mode: Mode, legacyV1: bool, first: Made, second: Made): (seq<Attempt>, bool) {
    var a := Attempt(Choose(mode, legacyV1), first);
    if FallsBack(mode, a) then ([a, Attempt(V1, second)], true) else ([a], legacyV1)
  }

  class Selector {
    const mode: Mode
    var legacyV1: bool

    constructor (mode: Mode)
      ensures this.mode == mode && !legacyV1
    {
      this.mode := mode;
      legacyV1 := false;
    }

    method Create(first: Made, second: Made) returns (made: Made, attempts: seq<Attempt>, closed: Option<nat>)
      modifies this
      ensures (attempts, legacyV1) == Attempts(mode, old(legacyV1), first, second)
      ensures made == attempts[|attempts| - 1].made
      // the generation of an abandoned V2 attempt is closed, and no other
      ensures closed == if |attempts| == 2 then first.generation else None
    {
      var protocol := Choose(mode, legacyV1);
      attempts := [Attempt(protocol, first)];
      closed := None;
      if mode != Auto || protocol != V2 || first.problem != Some(V2Unavailable) {
        return first, attempts, closed;
      }
      if first.generation.Some? {
        closed := first.generation;
      }
      legacyV1 := true;
      attempts := [Attempt(protocol, first), Attempt(V1, second)];
      made := second;
    }
  }

  // ---- Successive create calls --------------------------------------------

  // The attempts of a series of calls, and the flag after them.
  function Run(mode: Mode, calls: seq<(Made, Made)>): (seq<Attempt>, bool) {
    if calls == [] then ([], false)
    else
      var (before, flag) := Run(mode, calls[..|calls| - 1]);
      var (now, flag') := Attempts(mode, flag, calls[|calls| - 1].0, calls[|calls| - 1].1);
      (before + now, flag')
  }

  // V2 ... V2 V1 ... V1, and a change of protocol only after V2 was unavailable.
  ghost predicate Ordered(mode: Mode, s: seq<Attempt>) {
    forall i :: 0 <= i < |s| - 1 ==>
      || s[i].protocol == s[i + 1].protocol
      || (s[i].protocol == V2 && s[i + 1].protocol == V1 && FallsBack(mode, s[i]))
  }

  // The flag is up exactly after a fallback; until then only V2 was tried.
  ghost predicate RunInv(mode: Mode, s: seq<Attempt>, flag: bool) {
    && Ordered(mode, s)
    && (mode == Auto && s != [] ==> s[0].protocol == V2)
    && (mode == Auto && !flag ==> forall i :: 0 <= i < |s| ==> s[i].protocol == V2 && !FallsBack(mode, s[i]))
    && (mode == Auto && flag ==>
          s != [] && s[|s| - 1].protocol == V1 && exists i :: 0 <= i < |s| && FallsBack(mode, s[i]))
    && (mode != Auto ==> !flag && forall i :: 0 <= i < |s| ==> s[i].protocol == Choose(mode, false))
  }

  lemma {:induction false} RunKeeps(mode: Mode, calls: seq<(Made, Made)>)
    ensures RunInv(mode, Run(mode, calls).0, Run(mode, calls).1)
  {
    if calls != [] {
      RunKeeps(mode, calls[..|calls| - 1]);
      var (before, flag) := Run(mode, calls[..|calls| - 1]);
      StepKeeps(mode, before, flag, calls[|calls| - 1].0, calls[|calls| - 1].1);
    }
  }

  lemma StepKeeps(mode: Mode, before: seq<Attempt>, flag: bool, first: Made, second: Made)
    requires RunInv(mode, before, flag)
    ensures var (now, flag') := Attempts(mode, flag, first, second); RunInv(mode, before + now, flag')
  {
    var (now, flag') := Attempts(mode, flag, first, second);
    var s := before + now;
    assert s[|before|] == now[0];
    if mode == Auto && flag {
      var i :| 0 <= i < |before| && FallsBack(mode, before[i]);
      assert FallsBack(mode, s[i]);
    }
  }

  lemma {:induction false} V1Stays(mode: Mode, s: seq<Attempt>, i: nat, j: nat)
    requires Ordered(mode, s) && i <= j < |s| && s[i].protocol == V1
    ensures s[j].protocol == V1
    decreases j
  {
    if i < j {
      V1Stays(mode, s, i, j - 1);
    }
  }

  // Over any series of create calls: once V1 is tried V2 never is again; V1 comes
  // to be tried after V2 only in auto mode and right after V2 was unavailable; a
  // forced mode never changes.
  lemma FallbackIsOneWay(mode: Mode, calls: seq<(Made, Made)>, i: nat, j: nat)
    requires i <= j < |Run(mode, calls).0|
    ensures var s := Run(mode, calls).0;
            && (s[i].protocol == V1 ==> s[j].protocol == V1)
            && (mode == OnlyV1 ==> s[i].protocol == V1)
            && (mode == OnlyV2 ==> s[i].protocol == V2)
            && (mode == Auto ==> s[0].protocol == V2)
            && (j == i + 1 && s[i].protocol != s[j].protocol ==>
                  mode == Auto && s[i].made.problem == Some(V2Unavailable))
  {
    RunKeeps(mode, calls);
    var s := Run(mode, calls).0;
    if s[i].protocol == V1 {
      V1Stays(mode, s, i, j);
    }
  }

  // In auto mode V1 has been tried exactly if some V2 attempt was unavailable.
  lemma FallbackNeedsUnavailable(calls: seq<(Made, Made)>)
    ensures var s := Run(Auto, calls).0;
            (exists i :: 0 <= i < |s| && s[i].protocol == V1) <==> exists i :: 0 <= i < |s| && FallsBack(Auto, s[i])
  {
    RunKeeps(Auto, calls);
    var (s, flag) := Run(Auto, calls);
    if flag {
      assert s[|s| - 1].protocol == V1;
    }
  }
}
