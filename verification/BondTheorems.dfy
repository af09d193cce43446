// What the bonded transport guarantees in every run, however readers, writers,
// Close and the grace timer race.
module BondTheorems {
  import opened Prelude
  import opened BondedConn
  import opened BondRaces
  import opened BondOwnership
  import opened BondClosing
  import opened BondGrace
  import opened BondWakeups

  ghost predicate Inv(s: State) {
    LockInv(s) && OwnerInv(s) && CloseInv(s) && GraceInv(s) && WakeInv(s)
  }

  lemma InvStep(s: State, l: Label)
    requires Inv(s)
    ensures Inv(Step(s, l))
  {
    LockStep(s, l);
    OwnerStep(s, l);
    CloseStep(s, l);
    GraceStep(s, l);
    WakeStep(s, l);
  }

  lemma {:induction false} ExecInv(ls: seq<Label>)
    ensures Inv(Exec(ls))
  {
    if ls != [] {
      ExecInv(ls[..|ls| - 1]);
      InvStep(Exec(ls[..|ls| - 1]), ls[|ls| - 1]);
    }
  }

  lemma ExecSnoc(ls: seq<Label>, more: seq<Label>)
    requires more != []
    ensures Exec(ls + more) == Step(Exec(ls + more[..|more| - 1]), more[|more| - 1])
  {
    assert (ls + more)[..|ls + more| - 1] == ls + more[..|more| - 1];
  }

  // ---- Retirement ---------------------------------------------------------

  // However the actors race, a path's connection is closed at most once, then its
  // cleanup runs at most once, then its done channel is closed at most once; and
  // a path that any of this has happened to is off the list.
  lemma PathsRetireOnceInOrder(ls: seq<Label>, p: PathId)
    requires p < |Exec(ls).sh.log|
    ensures Exec(ls).sh.log[p] <= RETIREMENT
    ensures p in Exec(ls).sh.b.paths ==> Exec(ls).sh.log[p] == []
  {
    ExecInv(ls);
    var s := Exec(ls);
    if p !in s.sh.b.paths && s.sh.log[p] != RETIREMENT {
      var t :| 0 <= t < |s.threads| && HoldsPath(s.threads[t], p);
      assert ChargedOne(s.sh, s.threads[t]);
    }
  }

  // Once Close has returned and every thread has finished, every path ever handed
  // to AddConn has been closed, cleaned up and reported done.
  lemma NothingLeaks(ls: seq<Label>, p: PathId)
    requires Exec(ls).sh.once == Finished
    requires forall t :: 0 <= t < |Exec(ls).threads| ==> Exec(ls).threads[t] == Stopped
    requires p < |Exec(ls).sh.log|
    ensures Exec(ls).sh.log[p] == RETIREMENT
  {
    ExecInv(ls);
    var s := Exec(ls);
    assert !InSomeCharge(s, p);
  }

  // ---- Closing ------------------------------------------------------------

  ghost predicate Sealed(s: State) {
    s.sh.sealed && s.sh.b.closed && s.sh.b.timer == None && s.sh.mu == None
  }

  // From Close's locked section on: no timer is tracked or armed, and paths leave
  // the list but never join it.
  lemma {:induction false} SealIsFinal(ls: seq<Label>, more: seq<Label>)
    requires Exec(ls).sh.sealed
    ensures Sealed(Exec(ls + more))
    ensures Exec(ls + more).sh.b.nextTimer == Exec(ls).sh.b.nextTimer
    ensures forall p :: p in Exec(ls + more).sh.b.paths ==> p in Exec(ls).sh.b.paths
  {
    ExecInv(ls + more);
    if more == [] {
      assert ls + more == ls;
    } else {
      var prefix := more[..|more| - 1];
      SealIsFinal(ls, prefix);
      ExecSnoc(ls, more);
      SealKept(Exec(ls + prefix), more[|more| - 1]) by { ExecInv(ls + prefix); }
    }
  }

  lemma SealKept(s: State, l: Label)
    requires Inv(s) && s.sh.sealed
    ensures Step(s, l).sh.sealed
    ensures Step(s, l).sh.b.nextTimer == s.sh.b.nextTimer
    ensures forall p :: p in Step(s, l).sh.b.paths ==> p in s.sh.b.paths
    ensures s.sh.once == Finished ==> Step(s, l).sh.once == Finished
  {
    if l.Run? && l.t < |s.threads| {
      ActClose(s, l.t, l.rotation, l.outcome);
      assert CloseFacts(s.sh, s.threads[l.t]);
    }
  }

  // Closing is final under every race: after Close has finished, whatever happens
  // next, the bond stays closed and empty and no grace timer is tracked or armed
  // again, even for an AddConn that passed its closed check before the close.
  lemma {:induction false} CloseIsFinal(ls: seq<Label>, more: seq<Label>)
    requires Exec(ls).sh.once == Finished
    ensures var s := Exec(ls + more);
            && s.sh.once == Finished && Sealed(s) && s.sh.b.paths == []
            && s.sh.b.nextTimer == Exec(ls).sh.b.nextTimer
  {
    ExecInv(ls);
    ExecInv(ls + more);
    SealIsFinal(ls, more);
    if more == [] {
      assert ls + more == ls;
    } else {
      var prefix := more[..|more| - 1];
      CloseIsFinal(ls, prefix);
      ExecSnoc(ls, more);
      SealKept(Exec(ls + prefix), more[|more| - 1]) by { ExecInv(ls + prefix); }
    }
  }

  // ---- The empty grace ----------------------------------------------------

  // With a path listed there is no tracked timer and no expiry, and before expiry
  // the runtime holds no grace timer but the tracked one.
  lemma TimersFollowPaths(ls: seq<Label>)
    ensures var b := Exec(ls).sh.b;
            && (b.paths != [] ==> b.timer == None && !b.expired)
            && (!b.expired ==> forall id :: id in b.armed ==> b.timer == Some(id))
  {
    ExecInv(ls);
  }

  lemma {:induction false} ExpiryIsFinal(ls: seq<Label>, more: seq<Label>)
    requires Exec(ls).sh.b.expired
    ensures Exec(ls + more).sh.b.expired && Exec(ls + more).sh.b.paths == []
  {
    ExecInv(ls + more);
    if more == [] {
      assert ls + more == ls;
    } else {
      var prefix := more[..|more| - 1];
      ExpiryIsFinal(ls, prefix);
      ExecSnoc(ls, more);
      ExpiryKept(Exec(ls + prefix), more[|more| - 1]) by { ExecInv(ls + prefix); }
    }
  }

  lemma ExpiryKept(s: State, l: Label)
    requires Inv(s) && s.sh.b.expired
    ensures Step(s, l).sh.b.expired
  {
    if l.Run? && l.t < |s.threads| {
      ActGrace(s, l.t, l.rotation, l.outcome);
    }
  }

  // ---- Wake-ups -----------------------------------------------------------

  // A consumer asleep on an empty state channel has seen the current path count,
  // unless a thread is still on its way to notify it.
  lemma NoLostWakeup(ls: seq<Label>)
    requires Exec(ls).consumer.Blocked? && !Exec(ls).sh.b.notified
    ensures Exec(ls).consumer.seen == |Exec(ls).sh.b.paths| || NotifierPending(Exec(ls))
  {
    ExecInv(ls);
  }
}
