// In every interleaving: a consumer that sleeps on the state channel has seen the
// current number of paths, or somebody is about to wake it.
module BondWakeups {
  import opened BondRaces

  // A thread that changed the path list and has yet to send the notification.
  predicate Notifier(pc: Pc) {
    || pc.AddNotify? || pc.RemoveCount? || pc.RemoveNotify?
    || (pc.Grace? && pc.caller.AfterRemove?) || (pc.Arm? && pc.caller.AfterRemove?)
  }

  ghost predicate NotifierPending(s: State) {
    exists t :: 0 <= t < |s.threads| && Notifier(s.threads[t])
  }

  ghost predicate WakeInv(s: State) {
    s.consumer.Blocked? && s.consumer.seen != |s.sh.b.paths| ==> s.sh.b.notified || NotifierPending(s)
  }

  ghost predicate WakeMove(sh: Shared, pc: Pc, m: Move) {
    && (sh.b.notified ==> m.sh.b.notified)
    && (Notifier(pc) ==> Notifier(m.pc) || m.sh.b.notified)
    && (m.sh.b.paths != sh.b.paths ==> Notifier(m.pc))
  }

  lemma FreeWake(sh: Shared, pc: Pc, outcome: Outcome)
    requires !NeedsLock(pc) && !InSection(pc)
    ensures WakeMove(sh, pc, Free(sh, pc, outcome))
  {
  }

  lemma LockedWake(sh: Shared, t: ThreadId, pc: Pc, rotation: nat)
    requires NeedsLock(pc)
    ensures WakeMove(sh, pc, Locked(sh, t, pc, rotation))
  {
  }

  lemma ActWake(sh: Shared, t: ThreadId, pc: Pc, rotation: nat, outcome: Outcome)
    ensures WakeMove(sh, pc, Act(sh, t, pc, rotation, outcome))
  {
    if NeedsLock(pc) {
      LockedWake(sh, t, pc, rotation);
    } else if !InSection(pc) {
      FreeWake(sh, pc, outcome);
    }
  }

  lemma WakeStep(s: State, l: Label)
    requires WakeInv(s)
    ensures WakeInv(Step(s, l))
  {
    var s' := Step(s, l);
    if l.Run? && l.t < |s.threads| {
      var m := Act(s.sh, l.t, s.threads[l.t], l.rotation, l.outcome);
      ActWake(s.sh, l.t, s.threads[l.t], l.rotation, l.outcome);
      TakeWake(s, l.t, m);
    } else if NotifierPending(s) {
      var u :| 0 <= u < |s.threads| && Notifier(s.threads[u]);
      assert s'.threads[u] == s.threads[u];
    }
  }

  lemma TakeWake(s: State, t: ThreadId, m: Move)
    requires t < |s.threads| && WakeInv(s) && WakeMove(s.sh, s.threads[t], m)
    ensures WakeInv(Take(s, t, m))
  {
    var s' := Take(s, t, m);
    assert s'.threads[t] == m.pc;
    if NotifierPending(s) {
      var u :| 0 <= u < |s.threads| && Notifier(s.threads[u]);
      assert u == t || Notifier(s'.threads[u]);
    }
  }

  // A blocked consumer that finds a notification takes it out of the channel and goes
  // on to count; one that counts sees the paths there are, unless the lock is held.
  lemma ConsumerWakes(s: State)
    ensures s.consumer.Blocked? && s.sh.b.notified ==>
              Step(s, Consume).consumer == Counting && !Step(s, Consume).sh.b.notified
    ensures s.consumer.Counting? && s.sh.mu.None? ==> Step(s, Consume).consumer == Blocked(|s.sh.b.paths|)
    ensures s.consumer.Blocked? && !s.sh.b.notified ==> Step(s, Consume) == s
  {
  }

  // The three places that notify leave the channel full: a path that joined, one that
  // left, and Close.
  lemma NotifiersNotify(s: State, l: Label)
    requires l.Run? && l.t < |s.threads|
    requires s.threads[l.t].AddNotify? || s.threads[l.t].RemoveNotify? || s.threads[l.t].CloseNotify?
    ensures Step(s, l).sh.b.notified
  {
  }
}
