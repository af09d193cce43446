// In every interleaving: what the empty-grace timer means, and that an open bond
// without paths always has somebody on the way to end it.
module BondGrace {
  import opened Prelude
  import opened BondRaces
  import opened BondOwnership
  import opened BondClosing

  // Paths rule out a tracked timer and expiry; until expiry the only timer the
  // runtime holds is the tracked one.
  ghost predicate TimerInv(sh: Shared) {
    && (sh.b.paths != [] ==> sh.b.timer == None && !sh.b.expired && sh.hadPath)
    && (forall id :: id in sh.b.armed ==> sh.b.expired || sh.b.timer == Some(id))
  }

  predicate Quiet(sh: Shared) {
    sh.b.paths == [] && sh.b.timer == None && !sh.b.expired
  }

  ghost predicate ArmInv(s: State) {
    forall t :: 0 <= t < |s.threads| && s.threads[t].Arm? ==> Quiet(s.sh)
  }

  ghost predicate SomeThread(s: State, pc: Pc) {
    exists t :: 0 <= t < |s.threads| && s.threads[t] == pc
  }

  // A tracked timer will fire, or has fired and waits for the lock.
  ghost predicate FireInv(s: State) {
    s.sh.b.timer.Some? ==>
      s.sh.b.timer.value in s.sh.b.armed || SomeThread(s, TimerBody(s.sh.b.timer.value))
  }

  // A thread that removed a path and has yet to look after an empty bond, or is
  // arming a timer.
  predicate Watching(pc: Pc) {
    pc.RemoveCount? || pc.Arm? || (pc.Grace? && pc.caller.AfterRemove?)
  }

  ghost predicate Watched(s: State) {
    exists t :: 0 <= t < |s.threads| && Watching(s.threads[t])
  }

  predicate Abandoned(sh: Shared) {
    !sh.b.closed && sh.hadPath && sh.b.paths == []
  }

  ghost predicate WatchInv(s: State) {
    Abandoned(s.sh) ==> s.sh.b.expired || s.sh.b.timer.Some? || Watched(s)
  }

  predicate Closer(pc: Pc) {
    pc.CloseEnter? || pc.CloseSignal?
  }

  ghost predicate Closers(s: State) {
    exists t :: 0 <= t < |s.threads| && Closer(s.threads[t])
  }

  // An expired bond is closed or about to be.
  ghost predicate ExpiryInv(s: State) {
    s.sh.b.expired ==> s.sh.b.closed || Closers(s)
  }

  ghost predicate GraceInv(s: State) {
    TimerInv(s.sh) && ArmInv(s) && FireInv(s) && WatchInv(s) && ExpiryInv(s)
  }

  // ---- One thread's step --------------------------------------------------

  // What a step may do to the fields of the grace timer.
  ghost predicate GraceMove(sh: Shared, t: ThreadId, pc: Pc, m: Move) {
    && TimerInv(m.sh)
    && (sh.b.expired ==> m.sh.b.expired)
    && (m.pc.Arm? ==> Quiet(m.sh))
    && (sh.mu.Some? && sh.mu != Some(t) ==> Quiet(m.sh) == Quiet(sh))
    // the tracked timer is an old one still on its way, or a new armed one
    && (m.sh.b.timer.Some? ==>
          m.sh.b.timer.value in m.sh.b.armed
          || (m.sh.b.timer == sh.b.timer && m.sh.b.armed == sh.b.armed && (pc.TimerBody? ==> m.pc == pc)))
    // an abandoned bond is looked after by this thread, or as it was before
    && (Abandoned(m.sh) ==>
          m.sh.b.expired || m.sh.b.timer.Some? || Watching(m.pc)
          || (Abandoned(sh) && m.sh.b.timer == sh.b.timer && !sh.b.expired && !Watching(pc)))
    && (m.sh.b.expired ==> m.sh.b.closed || Closer(m.pc) || (sh.b.expired && !sh.b.closed && !Closer(pc)))
    && (m.spawned.Some? ==> m.spawned.value.Reading?)
  }

  lemma LockedGrace(sh: Shared, t: ThreadId, pc: Pc, rotation: nat)
    requires TimerInv(sh) && NeedsLock(pc) && sh.mu == None
    requires pc.CloseTimer? ==> sh.b.closed
    ensures GraceMove(sh, t, pc, Locked(sh, t, pc, rotation))
  {
  }

  lemma HoldingGrace(sh: Shared, t: ThreadId, pc: Pc)
    requires TimerInv(sh) && InSection(pc) && sh.mu == Some(t)
    requires pc.Arm? ==> Quiet(sh)
    ensures GraceMove(sh, t, pc, Holding(sh, pc))
  {
  }

  lemma FreeGrace(sh: Shared, t: ThreadId, pc: Pc, outcome: Outcome)
    requires TimerInv(sh) && SealInv(sh) && !NeedsLock(pc) && !InSection(pc)
    ensures GraceMove(sh, t, pc, Free(sh, pc, outcome))
  {
  }

  lemma ActGrace(s: State, t: ThreadId, rotation: nat, outcome: Outcome)
    requires t < |s.threads| && LockInv(s) && CloseInv(s) && TimerInv(s.sh) && ArmInv(s)
    ensures GraceMove(s.sh, t, s.threads[t], Act(s.sh, t, s.threads[t], rotation, outcome))
  {
    var pc := s.threads[t];
    assert CloseFacts(s.sh, pc);
    if NeedsLock(pc) {
      if s.sh.mu == None {
        LockedGrace(s.sh, t, pc, rotation);
      }
    } else if InSection(pc) {
      HoldingGrace(s.sh, t, pc);
    } else {
      FreeGrace(s.sh, t, pc, outcome);
    }
  }

  // ---- The whole state ----------------------------------------------------

  lemma TakeTimers(s: State, t: ThreadId, m: Move)
    requires t < |s.threads| && LockInv(s) && GraceInv(s)
    requires GraceMove(s.sh, t, s.threads[t], m) && LockMove(s.sh, t, m)
    ensures ArmInv(Take(s, t, m)) && FireInv(Take(s, t, m))
  {
    var s' := Take(s, t, m);
    if s'.sh.b.timer.Some? && s'.sh.b.timer.value !in s'.sh.b.armed {
      var id := s'.sh.b.timer.value;
      var u :| 0 <= u < |s.threads| && s.threads[u] == TimerBody(id);
      assert s'.threads[u] == TimerBody(id);
    }
  }

  lemma TakeWatch(s: State, t: ThreadId, m: Move)
    requires t < |s.threads| && GraceInv(s)
    requires GraceMove(s.sh, t, s.threads[t], m)
    ensures WatchInv(Take(s, t, m)) && ExpiryInv(Take(s, t, m))
  {
    var s' := Take(s, t, m);
    assert s'.threads[t] == m.pc;
    if Abandoned(m.sh) && Watched(s) {
      var u :| 0 <= u < |s.threads| && Watching(s.threads[u]);
      assert u == t || Watching(s'.threads[u]);
    }
    if m.sh.b.expired && Closers(s) {
      var u :| 0 <= u < |s.threads| && Closer(s.threads[u]);
      assert u == t || Closer(s'.threads[u]);
    }
  }

  // Steps that start a thread, and the consumer's.
  lemma CallGrace(s: State, l: Label)
    requires GraceInv(s) && !l.Run?
    ensures GraceInv(Step(s, l))
  {
    var s' := Step(s, l);
    assert forall u :: 0 <= u < |s.threads| ==> s'.threads[u] == s.threads[u];
    assert Watched(s) ==> Watched(s');
    assert Closers(s) ==> Closers(s');
    if s.sh.b.timer.Some? {
      var id := s.sh.b.timer.value;
      if l == Fire(id) && id in s.sh.b.armed {
        assert s'.threads[|s.threads|] == TimerBody(id);
      } else {
        assert SomeThread(s, TimerBody(id)) ==> SomeThread(s', TimerBody(id));
      }
    }
  }

  lemma GraceStep(s: State, l: Label)
    requires LockInv(s) && CloseInv(s) && GraceInv(s)
    ensures GraceInv(Step(s, l))
  {
    if l.Run? {
      if l.t < |s.threads| {
        var m := Act(s.sh, l.t, s.threads[l.t], l.rotation, l.outcome);
        ActGrace(s, l.t, l.rotation, l.outcome);
        ActLock(s.sh, l.t, s.threads[l.t], l.rotation, l.outcome);
        TakeTimers(s, l.t, m);
        TakeWatch(s, l.t, m);
      }
    } else {
      CallGrace(s, l);
    }
  }
}
