// In every interleaving: at most one thread runs the body of Close, and what it
// has established at each of its steps stays true.
module BondClosing {
  import opened Prelude
  import opened BondedConn
  import opened BondRaces
  import opened BondOwnership

  // The paths that Close still has to remove after the current one, if this
  // thread runs the body of Close.
  function CloseCont(pc: Pc): Option<Cont> {
    match pc
    case Remove(_, k) => Some(k)
    case RemoveCount(_, k) => Some(k)
    case RemoveNotify(_, k) => Some(k)
    case Retire(_, _, k) => Some(k)
    case Grace(AfterRemove(_, k)) => Some(k)
    case Arm(AfterRemove(_, k)) => Some(k)
    case _ => None
  }

  predicate InRemoval(pc: Pc) {
    CloseCont(pc).Some? && CloseCont(pc).value.CloseRest?
  }

  predicate RunsClose(pc: Pc) {
    pc.CloseSignal? || pc.CloseTimer? || pc.CloseNotify? || pc.CloseSnapshot? || pc.CloseLoop? || InRemoval(pc)
  }

  ghost predicate Within(paths: seq<PathId>, rest: seq<PathId>) {
    forall p :: p in paths ==> p in rest
  }

  // What the thread running Close knows.
  ghost predicate CloseFacts(sh: Shared, pc: Pc) {
    && (RunsClose(pc) ==> sh.once == Running)
    && (pc.CloseSignal? ==> !sh.b.closed)
    && (RunsClose(pc) && !pc.CloseSignal? ==> sh.b.closed)
    && (RunsClose(pc) && !pc.CloseSignal? && !pc.CloseTimer? ==> sh.sealed)
    && (pc.CloseLoop? ==> Within(sh.b.paths, pc.rest))
    && (InRemoval(pc) ==>
          Within(sh.b.paths, (if pc.Remove? then [pc.p] else []) + CloseCont(pc).value.rest))
  }

  ghost predicate SealInv(sh: Shared) {
    && (sh.once == Fresh ==> !sh.b.closed)
    && (sh.b.closed ==> sh.once != Fresh)
    && (sh.sealed ==> sh.b.closed && sh.b.timer == None && sh.mu == None)
    && (sh.once == Finished ==> sh.sealed && sh.b.paths == [])
  }

  ghost predicate OneCloser(s: State) {
    forall t, u | 0 <= t < |s.threads| && 0 <= u < |s.threads| ::
      RunsClose(s.threads[t]) && RunsClose(s.threads[u]) ==> t == u
  }

  // The first Close to enter is still at its signal until the channel is closed.
  ghost predicate SignalInv(s: State) {
    s.sh.once == Running && !s.sh.b.closed ==> exists t :: 0 <= t < |s.threads| && s.threads[t].CloseSignal?
  }

  ghost predicate CloseInv(s: State) {
    && SealInv(s.sh)
    && OneCloser(s)
    && SignalInv(s)
    && forall t :: 0 <= t < |s.threads| ==> CloseFacts(s.sh, s.threads[t])
  }

  // ---- One thread's step --------------------------------------------------

  ghost predicate CloseMove(sh: Shared, pc: Pc, m: Move) {
    && SealInv(m.sh) && CloseFacts(m.sh, m.pc)
    && (RunsClose(m.pc) ==> RunsClose(pc) || sh.once == Fresh)
    && (m.spawned.Some? ==> m.spawned.value.Reading?)
    // what other threads rely on
    && (sh.sealed ==> m.sh.sealed && forall p :: p in m.sh.b.paths ==> p in sh.b.paths)
    && (m.sh.once != sh.once ==> sh.once == Fresh || RunsClose(pc))
    && (m.sh.b.closed != sh.b.closed ==> pc.CloseSignal?)
    && (m.sh.sealed != sh.sealed ==> pc.CloseTimer?)
    && (m.sh.once == Running && !m.sh.b.closed && !m.pc.CloseSignal? ==>
          sh.once == Running && !sh.b.closed && !pc.CloseSignal?)
    && (sh.sealed ==> m.sh.b.nextTimer == sh.b.nextTimer)
  }

  lemma NotWithinNone(paths: seq<PathId>)
    ensures paths != [] ==> !Within(paths, [])
  {
    if paths != [] {
      assert paths[0] in paths;
    }
  }

  lemma RemoveClose(sh: Shared, t: ThreadId, pc: Pc, rotation: nat)
    requires pc.Remove? && sh.mu == None
    requires SealInv(sh) && CloseFacts(sh, pc) && Distinct(sh.b.paths)
    ensures CloseMove(sh, pc, Locked(sh, t, pc, rotation))
  {
    WithoutDistinct(sh.b.paths, pc.p);
  }

  lemma LockedClose(sh: Shared, t: ThreadId, pc: Pc, rotation: nat)
    requires NeedsLock(pc) && !pc.Remove? && sh.mu == None
    requires SealInv(sh) && CloseFacts(sh, pc)
    ensures CloseMove(sh, pc, Locked(sh, t, pc, rotation))
  {
  }

  lemma HoldingClose(sh: Shared, t: ThreadId, pc: Pc)
    requires InSection(pc) && sh.mu == Some(t)
    requires SealInv(sh) && CloseFacts(sh, pc)
    ensures CloseMove(sh, pc, Holding(sh, pc))
  {
  }

  lemma LoopClose(sh: Shared, pc: Pc, outcome: Outcome)
    requires pc.CloseLoop? && SealInv(sh) && CloseFacts(sh, pc)
    ensures CloseMove(sh, pc, Free(sh, pc, outcome))
  {
    if pc.rest == [] {
      NotWithinNone(sh.b.paths);
    } else {
      assert pc.rest == [pc.rest[0]] + pc.rest[1..];
    }
  }

  lemma FreeClose(sh: Shared, pc: Pc, outcome: Outcome)
    requires !NeedsLock(pc) && !InSection(pc) && !pc.CloseLoop?
    requires SealInv(sh) && CloseFacts(sh, pc)
    ensures CloseMove(sh, pc, Free(sh, pc, outcome))
  {
    if pc.RemoveNotify? || pc.Retire? || pc.CloseEnter? || pc.CloseSignal? || pc.CloseNotify? {
      RetireClose(sh, pc, outcome);
    }
  }

  lemma RetireClose(sh: Shared, pc: Pc, outcome: Outcome)
    requires pc.RemoveNotify? || pc.Retire? || pc.CloseEnter? || pc.CloseSignal? || pc.CloseNotify?
    requires SealInv(sh) && CloseFacts(sh, pc)
    ensures CloseMove(sh, pc, Free(sh, pc, outcome))
  {
  }

  lemma ActClose(s: State, t: ThreadId, rotation: nat, outcome: Outcome)
    requires t < |s.threads| && LockInv(s) && CloseInv(s) && Distinct(s.sh.b.paths)
    ensures CloseMove(s.sh, s.threads[t], Act(s.sh, t, s.threads[t], rotation, outcome))
  {
    var pc := s.threads[t];
    if NeedsLock(pc) {
      if s.sh.mu == None {
        if pc.Remove? {
          RemoveClose(s.sh, t, pc, rotation);
        } else {
          LockedClose(s.sh, t, pc, rotation);
        }
      }
    } else if InSection(pc) {
      HoldingClose(s.sh, t, pc);
    } else if pc.CloseLoop? {
      LoopClose(s.sh, pc, outcome);
    } else {
      FreeClose(s.sh, pc, outcome);
    }
  }

  // ---- The whole state ----------------------------------------------------

  // Another thread's step leaves what the closing thread knows intact.
  lemma FactsKept(s: State, t: ThreadId, u: ThreadId, m: Move)
    requires t < |s.threads| && u < |s.threads| && t != u
    requires CloseInv(s) && CloseMove(s.sh, s.threads[t], m)
    ensures CloseFacts(m.sh, s.threads[u])
  {
    assert CloseFacts(s.sh, s.threads[u]);
    assert CloseFacts(s.sh, s.threads[t]);
  }

  lemma TakeClose(s: State, t: ThreadId, m: Move)
    requires t < |s.threads| && CloseInv(s) && CloseMove(s.sh, s.threads[t], m)
    ensures CloseInv(Take(s, t, m))
  {
    var s' := Take(s, t, m);
    forall u | 0 <= u < |s'.threads|
      ensures CloseFacts(s'.sh, s'.threads[u])
    {
      if u < |s.threads| && u != t {
        FactsKept(s, t, u, m);
      }
    }
    TakeOneCloser(s, t, m);
    TakeSignal(s, t, m);
  }

  lemma TakeOneCloser(s: State, t: ThreadId, m: Move)
    requires t < |s.threads| && CloseInv(s) && CloseMove(s.sh, s.threads[t], m)
    ensures OneCloser(Take(s, t, m))
  {
    forall u | 0 <= u < |s.threads| && u != t
      ensures !(RunsClose(s.threads[u]) && RunsClose(m.pc))
    {
      assert CloseFacts(s.sh, s.threads[u]);
    }
  }

  lemma TakeSignal(s: State, t: ThreadId, m: Move)
    requires t < |s.threads| && CloseInv(s) && CloseMove(s.sh, s.threads[t], m)
    ensures SignalInv(Take(s, t, m))
  {
    var s' := Take(s, t, m);
    if s'.sh.once == Running && !s'.sh.b.closed {
      if m.pc.CloseSignal? {
        assert s'.threads[t].CloseSignal?;
      } else {
        var u :| 0 <= u < |s.threads| && s.threads[u].CloseSignal?;
        assert s'.threads[u].CloseSignal?;
      }
    }
  }

  lemma CallClosing(s: State, l: Label)
    requires CloseInv(s) && !l.Run?
    ensures CloseInv(Step(s, l))
  {
    var s' := Step(s, l);
    assert forall u :: 0 <= u < |s.threads| ==> s'.threads[u] == s.threads[u];
    forall u | 0 <= u < |s'.threads|
      ensures CloseFacts(s'.sh, s'.threads[u])
      ensures u == |s.threads| ==> !RunsClose(s'.threads[u])
    {
      assert u == |s.threads| || CloseFacts(s.sh, s.threads[u]);
    }
  }

  lemma CloseStep(s: State, l: Label)
    requires LockInv(s) && CloseInv(s) && Distinct(s.sh.b.paths)
    ensures CloseInv(Step(s, l))
  {
    if l.Run? {
      if l.t < |s.threads| {
        ActClose(s, l.t, l.rotation, l.outcome);
        TakeClose(s, l.t, Act(s.sh, l.t, s.threads[l.t], l.rotation, l.outcome));
      }
    } else {
      CallClosing(s, l);
    }
  }
}
