// In every interleaving: why a path leaves the list, and why a bond closes.
module BondCauses {
  import opened Prelude
  import opened BondRaces
  import opened BondOwnership
  import opened BondClosing
  import opened BondTheorems
  import BondedConn

  type PathId = BondedConn.PathId

  // ---- Why a path leaves --------------------------------------------------

  // The step that made a thread set out to remove p: its reader failed, Close came
  // to it, or a writer's own attempt on it failed for good.
  predicate SetsOut(pc: Pc, outcome: Outcome, p: PathId, k: Cont) {
    match k
    case Return => pc == Reading(p)
    case CloseRest(rest) => pc == CloseLoop([p] + rest)
    case WriteRest(rest) => pc == WriteTry([p] + rest) && outcome == Permanent
  }

  ghost predicate SetOut(ls: seq<Label>, i: nat, t: ThreadId, p: PathId, k: Cont) {
    && i < |ls| && ls[i].Run? && ls[i].t == t && t < |Exec(ls[..i]).threads|
    && SetsOut(Exec(ls[..i]).threads[t], ls[i].outcome, p, k)
  }

  // A thread comes to Remove only that way.
  lemma ActSetsOut(sh: Shared, t: ThreadId, pc: Pc, rotation: nat, outcome: Outcome)
    ensures var m := Act(sh, t, pc, rotation, outcome);
            && (m.pc.Remove? ==> m.pc == pc || SetsOut(pc, outcome, m.pc.p, m.pc.k))
            && (m.spawned.Some? ==> m.spawned.value.Reading?)
  {
    if NeedsLock(pc) {
    } else if InSection(pc) {
    } else {
      FreeSetsOut(sh, pc, outcome);
    }
  }

  lemma FreeSetsOut(sh: Shared, pc: Pc, outcome: Outcome)
    requires !NeedsLock(pc) && !InSection(pc)
    ensures var m := Free(sh, pc, outcome);
            && (m.pc.Remove? ==> m.pc == pc || SetsOut(pc, outcome, m.pc.p, m.pc.k))
            && (m.spawned.Some? ==> m.spawned.value.Reading?)
  {
    if (pc.CloseLoop? || pc.WriteTry?) && pc.rest != [] {
      assert pc.rest == [pc.rest[0]] + pc.rest[1..];
    }
  }

  lemma StepSetsOut(s: State, l: Label, t: ThreadId)
    requires t < |Step(s, l).threads| && Step(s, l).threads[t].Remove?
    ensures var pc := Step(s, l).threads[t];
            && t < |s.threads|
            && (s.threads[t] == pc || (l.Run? && l.t == t && SetsOut(s.threads[t], l.outcome, pc.p, pc.k)))
  {
    if l.Run? && l.t < |s.threads| {
      ActSetsOut(s.sh, l.t, s.threads[l.t], l.rotation, l.outcome);
    }
  }

  // A thread that is removing a path set out to do so, and has been at it since.
  lemma {:induction false} RemoverSetOut(ls: seq<Label>, t: ThreadId) returns (i: nat)
    requires t < |Exec(ls).threads| && Exec(ls).threads[t].Remove?
    ensures SetOut(ls, i, t, Exec(ls).threads[t].p, Exec(ls).threads[t].k)
  {
    var before, l := ls[..|ls| - 1], ls[|ls| - 1];
    StepSetsOut(Exec(before), l, t);
    if Exec(before).threads[t] == Exec(ls).threads[t] {
      i := RemoverSetOut(before, t);
      assert before[..i] == ls[..i];
    } else {
      i := |ls| - 1;
    }
  }

  // The one way to leave the list: a removal by a thread that is at it.
  lemma StepRemoves(s: State, l: Label, p: PathId)
    requires Listed(s.sh) && p in s.sh.b.paths && p !in Step(s, l).sh.b.paths
    ensures l.Run? && l.t < |s.threads| && s.threads[l.t].Remove? && s.threads[l.t].p == p
  {
    if l.Run? && l.t < |s.threads| {
      ActOwner(s.sh, l.t, s.threads[l.t], l.rotation, l.outcome);
      if s.threads[l.t].Remove? {
        WithoutDistinct(s.sh.b.paths, s.threads[l.t].p);
      }
    }
  }

  // In every run, a step that takes a path off the list is taken by a thread that
  // set out for that very path because its reader failed, because of Close, or
  // because its own write to it failed for good.
  lemma PathLeavesForAReason(ls: seq<Label>, l: Label, p: PathId)
    requires p in Exec(ls).sh.b.paths && p !in Step(Exec(ls), l).sh.b.paths
    ensures l.Run? && l.t < |Exec(ls).threads| && Exec(ls).threads[l.t].Remove?
    ensures exists i :: SetOut(ls, i, l.t, p, Exec(ls).threads[l.t].k)
  {
    ExecInv(ls);
    StepRemoves(Exec(ls), l, p);
    var i := RemoverSetOut(ls, l.t);
  }

  // In every step the list stays, gains one path at its end, or loses one path
  // without disturbing the order of the others.
  lemma ListMoves(ls: seq<Label>, l: Label)
    ensures var a, b := Exec(ls).sh.b.paths, Step(Exec(ls), l).sh.b.paths;
            || b == a
            || (exists p :: p !in a && b == a + [p])
            || (exists i :: 0 <= i < |a| && b == a[..i] + a[i + 1..])
  {
    ExecInv(ls);
    var s := Exec(ls);
    if l.Run? && l.t < |s.threads| {
      var pc := s.threads[l.t];
      ActOwner(s.sh, l.t, pc, l.rotation, l.outcome);
      assert ChargedOne(s.sh, pc);
      if pc.Remove? && pc.p in s.sh.b.paths {
        var i := FirstPlace(s.sh.b.paths, pc.p);
      }
    }
  }

  lemma {:induction false} FirstPlace(s: seq<PathId>, p: PathId) returns (i: nat)
    requires p in s
    ensures i < |s| && Without(s, p) == s[..i] + s[i + 1..]
  {
    if s[0] == p {
      i := 0;
    } else {
      i := FirstPlace(s[1..], p);
      i := i + 1;
      assert s == [s[0]] + s[1..];
    }
  }

  // ---- Why a bond closes --------------------------------------------------

  predicate InClose(pc: Pc) {
    pc.CloseEnter? || RunsClose(pc)
  }

  // Nobody comes to be in Close, and nothing is closed, but by a thread in Close or
  // by expiry.
  ghost predicate CloseCause(sh: Shared, pc: Pc, m: Move) {
    && (InClose(m.pc) ==> InClose(pc) || m.sh.b.expired)
    && (m.sh.once != sh.once || m.sh.b.closed != sh.b.closed ==> InClose(pc))
    && (sh.b.expired ==> m.sh.b.expired)
    && (m.spawned.Some? ==> m.spawned.value.Reading?)
  }

  lemma ActCause(sh: Shared, t: ThreadId, pc: Pc, rotation: nat, outcome: Outcome)
    ensures CloseCause(sh, pc, Act(sh, t, pc, rotation, outcome))
  {
    if NeedsLock(pc) {
      LockedCause(sh, t, pc, rotation);
    } else if !InSection(pc) {
      FreeCause(sh, pc, outcome);
    }
  }

  lemma LockedCause(sh: Shared, t: ThreadId, pc: Pc, rotation: nat)
    requires NeedsLock(pc)
    ensures CloseCause(sh, pc, Locked(sh, t, pc, rotation))
  {
  }

  lemma FreeCause(sh: Shared, pc: Pc, outcome: Outcome)
    requires !NeedsLock(pc) && !InSection(pc)
    ensures CloseCause(sh, pc, Free(sh, pc, outcome))
  {
  }

  ghost predicate Closing(s: State) {
    s.sh.once != Fresh || s.sh.b.closed || exists t :: 0 <= t < |s.threads| && InClose(s.threads[t])
  }

  lemma CauseStep(s: State, l: Label)
    ensures Closing(Step(s, l)) ==> Closing(s) || l.CallClose? || Step(s, l).sh.b.expired
    ensures s.sh.b.expired ==> Step(s, l).sh.b.expired
  {
    var s' := Step(s, l);
    if l.Run? && l.t < |s.threads| {
      ActCause(s.sh, l.t, s.threads[l.t], l.rotation, l.outcome);
      forall u | 0 <= u < |s'.threads| && InClose(s'.threads[u])
        ensures Closing(s) || s'.sh.b.expired
      {
        assert u < |s.threads|;
        assert InClose(s.threads[u]) ==> Closing(s);
      }
    } else if Closing(s') {
      forall u | 0 <= u < |s'.threads| && InClose(s'.threads[u])
        ensures Closing(s) || l.CallClose?
      {
        assert u < |s.threads| ==> s'.threads[u] == s.threads[u];
      }
    }
  }

  // In every run, a bond is closed, or being closed, only if somebody called Close or
  // an empty grace ran out.
  lemma {:induction false} ClosedForAReason(ls: seq<Label>)
    ensures Closing(Exec(ls)) ==> CallClose in ls || Exec(ls).sh.b.expired
  {
    if ls != [] {
      ClosedForAReason(ls[..|ls| - 1]);
      CauseStep(Exec(ls[..|ls| - 1]), ls[|ls| - 1]);
    }
  }
}
