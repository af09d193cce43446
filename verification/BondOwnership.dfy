// In every interleaving: one thread at a time in a locked section, and at most
// one thread in charge of each path.
module BondOwnership {
  import opened Prelude
  import opened BondedConn
  import opened BondRaces

  // ---- Who holds the lock -------------------------------------------------

  ghost predicate LockInv(s: State) {
    && (s.sh.mu.Some? ==> s.sh.mu.value < |s.threads|)
    && forall t :: 0 <= t < |s.threads| ==> (InSection(s.threads[t]) <==> s.sh.mu == Some(t))
  }

  ghost predicate LockMove(sh: Shared, t: ThreadId, m: Move) {
    && (InSection(m.pc) <==> m.sh.mu == Some(t))
    && (m.sh.mu == sh.mu || (sh.mu in {None, Some(t)} && m.sh.mu in {None, Some(t)}))
    && (m.spawned.Some? ==> m.spawned.value.Reading?)
  }

  lemma FreeLock(sh: Shared, t: ThreadId, pc: Pc, outcome: Outcome)
    requires !NeedsLock(pc) && !InSection(pc) && sh.mu != Some(t)
    ensures LockMove(sh, t, Free(sh, pc, outcome))
  {
  }

  lemma LockedLock(sh: Shared, t: ThreadId, pc: Pc, rotation: nat)
    requires NeedsLock(pc) && sh.mu == None
    ensures LockMove(sh, t, Locked(sh, t, pc, rotation))
  {
  }

  lemma ActLock(sh: Shared, t: ThreadId, pc: Pc, rotation: nat, outcome: Outcome)
    requires InSection(pc) <==> sh.mu == Some(t)
    ensures LockMove(sh, t, Act(sh, t, pc, rotation, outcome))
  {
    if NeedsLock(pc) {
      if sh.mu == None {
        LockedLock(sh, t, pc, rotation);
      }
    } else if !InSection(pc) {
      FreeLock(sh, t, pc, outcome);
    }
  }

  lemma TakeLock(s: State, t: ThreadId, m: Move)
    requires LockInv(s) && t < |s.threads| && LockMove(s.sh, t, m)
    ensures LockInv(Take(s, t, m))
  {
  }

  lemma LockStep(s: State, l: Label)
    requires LockInv(s)
    ensures LockInv(Step(s, l))
  {
    if l.Run? && l.t < |s.threads| {
      ActLock(s.sh, l.t, s.threads[l.t], l.rotation, l.outcome);
      TakeLock(s, l.t, Act(s.sh, l.t, s.threads[l.t], l.rotation, l.outcome));
    }
  }

  // ---- Who is responsible for a path --------------------------------------

  // The path a thread has taken charge of, with the number of RETIREMENT events
  // already performed on it.
  function Holds(pc: Pc): Option<(PathId, nat)> {
    match pc
    case AddCheck(p) => Some((p, 0))
    case AddBody(p) => Some((p, 0))
    case RemoveCount(p, _) => Some((p, 0))
    case RemoveNotify(p, _) => Some((p, 0))
    case Grace(AfterRemove(p, _)) => Some((p, 0))
    case Arm(AfterRemove(p, _)) => Some((p, 0))
    case Retire(p, n, _) => Some((p, n))
    case _ => None
  }

  predicate HoldsPath(pc: Pc, p: PathId) {
    Holds(pc).Some? && Holds(pc).value.0 == p
  }

  // A thread in charge of p knows exactly what was done to p, and p is off the list.
  ghost predicate ChargedOne(sh: Shared, pc: Pc) {
    Holds(pc).Some? ==>
      var (p, n) := Holds(pc).value;
      p < |sh.log| && n < |RETIREMENT| && sh.log[p] == RETIREMENT[..n] && p !in sh.b.paths
  }

  ghost predicate Charged(s: State) {
    forall t :: 0 <= t < |s.threads| ==> ChargedOne(s.sh, s.threads[t])
  }

  ghost predicate Exclusive(s: State) {
    forall t, u :: 0 <= t < |s.threads| && 0 <= u < |s.threads| && t != u && Holds(s.threads[t]).Some? ==>
      !HoldsPath(s.threads[u], Holds(s.threads[t]).value.0)
  }

  ghost predicate Listed(sh: Shared) {
    && Distinct(sh.b.paths)
    && forall p :: p in sh.b.paths ==> p < |sh.log| && sh.log[p] == []
  }

  ghost predicate InSomeCharge(s: State, p: PathId) {
    exists t :: 0 <= t < |s.threads| && HoldsPath(s.threads[t], p)
  }

  // No path is forgotten: it is listed, in some thread's charge, or fully retired.
  ghost predicate Accounted(s: State) {
    forall p :: 0 <= p < |s.sh.log| ==>
      p in s.sh.b.paths || s.sh.log[p] == RETIREMENT || InSomeCharge(s, p)
  }

  ghost predicate OwnerInv(s: State) {
    Charged(s) && Exclusive(s) && Listed(s.sh) && Accounted(s)
  }

  // The four ways a step can touch the list, the log and who is in charge.
  ghost predicate Unmoved(sh: Shared, pc: Pc, m: Move) {
    m.sh.b.paths == sh.b.paths && m.sh.log == sh.log && Holds(m.pc) == Holds(pc)
  }

  ghost predicate Installs(sh: Shared, pc: Pc, m: Move, p: PathId) {
    m.sh.b.paths == sh.b.paths + [p] && m.sh.log == sh.log && Holds(pc) == Some((p, 0)) && Holds(m.pc) == None
  }

  ghost predicate Detaches(sh: Shared, pc: Pc, m: Move, p: PathId) {
    && p in sh.b.paths && m.sh.b.paths == Without(sh.b.paths, p) && m.sh.log == sh.log
    && Holds(pc) == None && Holds(m.pc) == Some((p, 0))
  }

  ghost predicate Retires(sh: Shared, pc: Pc, m: Move, p: PathId, n: nat) {
    && Holds(pc) == Some((p, n)) && p < |sh.log| && n < |RETIREMENT| && m.sh.b.paths == sh.b.paths
    && m.sh.log == sh.log[p := sh.log[p] + [RETIREMENT[n]]]
    && Holds(m.pc) == if n + 1 < |RETIREMENT| then Some((p, n + 1)) else None
  }

  ghost predicate OwnerMove(sh: Shared, pc: Pc, m: Move) {
    && (m.spawned.Some? ==> Holds(m.spawned.value) == None)
    && match pc
       case AddBody(p) => Unmoved(sh, pc, m) || Installs(sh, pc, m, p)
       case Remove(p, _) => Unmoved(sh, pc, m) || Detaches(sh, pc, m, p)
       case Retire(p, n, _) => Unmoved(sh, pc, m) || Retires(sh, pc, m, p, n)
       case _ => Unmoved(sh, pc, m)
  }

  lemma ActOwner(sh: Shared, t: ThreadId, pc: Pc, rotation: nat, outcome: Outcome)
    ensures OwnerMove(sh, pc, Act(sh, t, pc, rotation, outcome))
  {
    if NeedsLock(pc) {
      assert OwnerMove(sh, pc, Goto(sh, pc));
      assert OwnerMove(sh, pc, Locked(sh, t, pc, rotation));
    } else if InSection(pc) {
      assert OwnerMove(sh, pc, Holding(sh, pc));
    } else {
      FreeOwner(sh, pc, outcome);
    }
  }

  lemma FreeOwner(sh: Shared, pc: Pc, outcome: Outcome)
    requires !NeedsLock(pc) && !InSection(pc)
    ensures OwnerMove(sh, pc, Free(sh, pc, outcome))
  {
  }

  lemma TakeCharged(s: State, t: ThreadId, m: Move)
    requires OwnerInv(s) && t < |s.threads| && OwnerMove(s.sh, s.threads[t], m)
    ensures Charged(Take(s, t, m)) && Listed(m.sh)
  {
    if s.threads[t].Remove? {
      WithoutDistinct(s.sh.b.paths, s.threads[t].p);
    }
    var s' := Take(s, t, m);
    forall u | 0 <= u < |s'.threads|
      ensures ChargedOne(s'.sh, s'.threads[u])
    {
      if u != t && u < |s.threads| {
        assert ChargedOne(s.sh, s.threads[u]);
        assert ChargedOne(s.sh, s.threads[t]);
      }
    }
  }

  lemma TakeExclusive(s: State, t: ThreadId, m: Move)
    requires OwnerInv(s) && t < |s.threads| && OwnerMove(s.sh, s.threads[t], m)
    ensures Exclusive(Take(s, t, m))
  {
    var s' := Take(s, t, m);
    forall u | 0 <= u < |s.threads|
      ensures ChargedOne(s.sh, s.threads[u])
    {
    }
  }

  lemma TakeAccounted(s: State, t: ThreadId, m: Move)
    requires OwnerInv(s) && t < |s.threads| && OwnerMove(s.sh, s.threads[t], m)
    ensures Accounted(Take(s, t, m))
  {
    if s.threads[t].Remove? {
      WithoutDistinct(s.sh.b.paths, s.threads[t].p);
    }
    var s' := Take(s, t, m);
    assert ChargedOne(s.sh, s.threads[t]);
    forall p | 0 <= p < |s'.sh.log|
      ensures p in s'.sh.b.paths || s'.sh.log[p] == RETIREMENT || InSomeCharge(s', p)
    {
      if HoldsPath(m.pc, p) {
        assert HoldsPath(s'.threads[t], p);
      } else if InSomeCharge(s, p) {
        var u :| 0 <= u < |s.threads| && HoldsPath(s.threads[u], p);
        assert u == t || HoldsPath(s'.threads[u], p);
      }
    }
  }

  // Starting a thread that is in charge of nothing.
  lemma SpawnOwner(s: State, s': State, pc: Pc)
    requires OwnerInv(s) && Holds(pc) == None
    requires s'.sh.b.paths == s.sh.b.paths && s'.sh.log == s.sh.log
    requires s'.threads == s.threads || s'.threads == s.threads + [pc]
    ensures OwnerInv(s')
  {
    forall u | 0 <= u < |s'.threads|
      ensures ChargedOne(s'.sh, s'.threads[u])
    {
      assert u == |s.threads| || ChargedOne(s.sh, s.threads[u]);
    }
    forall p | 0 <= p < |s'.sh.log|
      ensures p in s'.sh.b.paths || s'.sh.log[p] == RETIREMENT || InSomeCharge(s', p)
    {
      if InSomeCharge(s, p) {
        var u :| 0 <= u < |s.threads| && HoldsPath(s.threads[u], p);
        assert HoldsPath(s'.threads[u], p);
      }
    }
  }

  lemma AddConnOwner(s: State)
    requires OwnerInv(s)
    ensures OwnerInv(Step(s, CallAddConn))
  {
    var s' := Step(s, CallAddConn);
    forall u | 0 <= u < |s'.threads|
      ensures ChargedOne(s'.sh, s'.threads[u])
      ensures u < |s.threads| ==> !HoldsPath(s'.threads[u], |s.sh.log|)
    {
      assert u == |s.threads| || ChargedOne(s.sh, s.threads[u]);
    }
    forall p | 0 <= p < |s'.sh.log|
      ensures p in s'.sh.b.paths || s'.sh.log[p] == RETIREMENT || InSomeCharge(s', p)
    {
      if p == |s.sh.log| {
        assert HoldsPath(s'.threads[|s.threads|], p);
      } else if InSomeCharge(s, p) {
        var u :| 0 <= u < |s.threads| && HoldsPath(s.threads[u], p);
        assert HoldsPath(s'.threads[u], p);
      }
    }
  }

  lemma OwnerStep(s: State, l: Label)
    requires OwnerInv(s)
    ensures OwnerInv(Step(s, l))
  {
    if l.Run? {
      if l.t < |s.threads| {
        var m := Act(s.sh, l.t, s.threads[l.t], l.rotation, l.outcome);
        ActOwner(s.sh, l.t, s.threads[l.t], l.rotation, l.outcome);
        TakeCharged(s, l.t, m);
        TakeExclusive(s, l.t, m);
        TakeAccounted(s, l.t, m);
      }
    } else if l.CallAddConn? {
      AddConnOwner(s);
    } else {
      var pc :=
        match l
        case CallWriteTo => WriteCheck
        case CallClose => CloseEnter
        case Fire(id) => TimerBody(id)
        case _ => Stopped;
      SpawnOwner(s, Step(s, l), pc);
    }
  }
}
