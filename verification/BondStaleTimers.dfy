// When the callback of an earlier grace timer can end a later empty period.
//
// A callback does not check that it is the tracked timer's. It is stale once the
// timer it belongs to is no longer tracked; this happens exactly when AddConn or
// Close stops a timer that has already fired.
module BondStaleTimers {
  import opened Prelude
  import opened BondedConn
  import opened RoundRobin
  import opened BondRaces
  import opened BondGrace
  import opened BondTheorems

  ghost predicate Stale(s: State, t: ThreadId) {
    t < |s.threads| && s.threads[t].TimerBody? && s.sh.b.timer != Some(s.threads[t].id)
  }

  ghost predicate StaleWaits(s: State) {
    exists t: ThreadId :: Stale(s, t)
  }

  // emptyTimer.Stop() on a timer that is tracked but has already fired.
  predicate LateStop(s: State, l: Label) {
    && l.Run? && l.t < |s.threads|
    && (s.threads[l.t].AddBody? || (s.threads[l.t].CloseTimer? && s.sh.mu == None))
    && s.sh.b.timer.Some? && s.sh.b.timer.value !in s.sh.b.armed
  }

  // ---- Timers and callbacks are told apart by their ids --------------------

  ghost predicate IdsInv(s: State) {
    var b := s.sh.b;
    && (forall id :: id in b.armed ==> id < b.nextTimer)
    && (b.timer.Some? ==> b.timer.value < b.nextTimer)
    && (forall t :: 0 <= t < |s.threads| && s.threads[t].TimerBody? ==>
          s.threads[t].id < b.nextTimer && s.threads[t].id !in b.armed)
    && (forall t, u :: 0 <= t < u < |s.threads| && s.threads[t].TimerBody? ==> s.threads[t] != s.threads[u])
  }

  // What one thread's step does to them: a timer may be armed under a new id.
  ghost predicate IdsMove(b: Bond, pc: Pc, m: Move) {
    var b' := m.sh.b;
    && (m.pc.TimerBody? ==> m.pc == pc)
    && (m.spawned.Some? ==> m.spawned.value.Reading?)
    && b.nextTimer <= b'.nextTimer
    && (forall id :: id in b'.armed ==> id in b.armed || b.nextTimer <= id < b'.nextTimer)
    && (b'.timer.Some? ==> b'.timer == b.timer || b'.timer.value < b'.nextTimer)
  }

  lemma ActIds(sh: Shared, t: ThreadId, pc: Pc, rotation: nat, outcome: Outcome)
    ensures IdsMove(sh.b, pc, Act(sh, t, pc, rotation, outcome))
  {
    if NeedsLock(pc) {
      assert IdsMove(sh.b, pc, Goto(sh, pc)) && IdsMove(sh.b, pc, Locked(sh, t, pc, rotation));
    } else if InSection(pc) {
      assert IdsMove(sh.b, pc, Holding(sh, pc));
    } else {
      assert IdsMove(sh.b, pc, Free(sh, pc, outcome));
    }
  }

  lemma TakeIds(s: State, t: ThreadId, m: Move)
    requires IdsInv(s) && t < |s.threads| && IdsMove(s.sh.b, s.threads[t], m)
    ensures IdsInv(Take(s, t, m))
  {
  }

  lemma IdsStep(s: State, l: Label)
    requires IdsInv(s)
    ensures IdsInv(Step(s, l))
  {
    if l.Run? {
      if l.t < |s.threads| {
        ActIds(s.sh, l.t, s.threads[l.t], l.rotation, l.outcome);
        TakeIds(s, l.t, Act(s.sh, l.t, s.threads[l.t], l.rotation, l.outcome));
      }
    }
  }

  lemma {:induction false} ExecIds(ls: seq<Label>)
    ensures IdsInv(Exec(ls))
  {
    if ls != [] {
      ExecIds(ls[..|ls| - 1]);
      IdsStep(Exec(ls[..|ls| - 1]), ls[|ls| - 1]);
    }
  }

  // ---- One step -----------------------------------------------------------

  // The sections that stop the tracked timer.
  predicate Stops(sh: Shared, pc: Pc) {
    pc.AddBody? || (pc.CloseTimer? && sh.mu == None)
  }

  // A step that leaves the bond unexpired stops the tracked timer, tracks a new
  // one where there was none, or tracks what was tracked.
  ghost predicate TrackMove(sh: Shared, pc: Pc, m: Move) {
    && (m.pc.TimerBody? ==> m.pc == pc)
    && (m.spawned.Some? ==> m.spawned.value.Reading?)
    && (m.sh.b.timer == sh.b.timer || sh.b.timer == None || Stops(sh, pc))
    && (Stops(sh, pc) ==> m.sh.b.timer == None)
  }

  lemma LockedTrack(sh: Shared, t: ThreadId, pc: Pc, rotation: nat)
    requires NeedsLock(pc) && sh.mu == None && (pc.TimerBody? ==> sh.b.paths == [])
    requires !Locked(sh, t, pc, rotation).sh.b.expired
    ensures TrackMove(sh, pc, Locked(sh, t, pc, rotation))
  {
  }

  lemma ActTrack(sh: Shared, t: ThreadId, pc: Pc, rotation: nat, outcome: Outcome)
    requires !sh.b.expired && (pc.TimerBody? ==> sh.b.paths == []) && (pc.Arm? ==> sh.b.timer == None)
    requires !Act(sh, t, pc, rotation, outcome).sh.b.expired
    ensures TrackMove(sh, pc, Act(sh, t, pc, rotation, outcome))
  {
    if NeedsLock(pc) {
      if sh.mu == None {
        LockedTrack(sh, t, pc, rotation);
      }
    } else if InSection(pc) {
      assert TrackMove(sh, pc, Holding(sh, pc));
    } else {
      assert TrackMove(sh, pc, Free(sh, pc, outcome));
    }
  }

  lemma TakeStale(s: State, l: Label, m: Move)
    requires l.Run? && l.t < |s.threads| && !StaleWaits(s) && FireInv(s) && IdsInv(s)
    requires TrackMove(s.sh, s.threads[l.t], m)
    ensures StaleWaits(Take(s, l.t, m)) <==> LateStop(s, l)
  {
    var s' := Take(s, l.t, m);
    forall u | 0 <= u < |s.threads|
      ensures !Stale(s, u)
    {
    }
    if LateStop(s, l) {
      var u :| 0 <= u < |s.threads| && s.threads[u] == TimerBody(s.sh.b.timer.value);
      assert Stale(s', u);
    }
    if StaleWaits(s') {
      var u: ThreadId :| Stale(s', u);
      assert u < |s.threads| && s.threads[u] == s'.threads[u];
      assert !Stale(s, u);
    }
  }

  // A callback is left stale by exactly the steps that stop a timer too late: from
  // any reachable unexpired state without a stale callback, and for any step that
  // does not expire the bond.
  lemma StaleExactlyAfterLateStop(ls: seq<Label>, l: Label)
    requires !Exec(ls).sh.b.expired && !StaleWaits(Exec(ls)) && !Step(Exec(ls), l).sh.b.expired
    ensures StaleWaits(Step(Exec(ls), l)) <==> LateStop(Exec(ls), l)
  {
    ExecInv(ls);
    ExecIds(ls);
    var s := Exec(ls);
    var s' := Step(s, l);
    if l.Run? && l.t < |s.threads| {
      var pc := s.threads[l.t];
      assert !Stale(s, l.t);
      ActTrack(s.sh, l.t, pc, l.rotation, l.outcome);
      TakeStale(s, l, Act(s.sh, l.t, pc, l.rotation, l.outcome));
    } else {
      CallNotStale(s, l);
    }
  }

  // A timer that fires before expiry is the tracked one.
  lemma CallNotStale(s: State, l: Label)
    requires TimerInv(s.sh) && !s.sh.b.expired && !StaleWaits(s) && (l.Run? ==> l.t >= |s.threads|)
    ensures !StaleWaits(Step(s, l))
  {
    forall u: ThreadId
      ensures !Stale(Step(s, l), u)
    {
      assert !Stale(s, u);
    }
  }

  // ---- Whole runs ---------------------------------------------------------

  ghost predicate NoLateStop(ls: seq<Label>) {
    forall i :: 0 <= i < |ls| ==> !LateStop(Exec(ls[..i]), ls[i])
  }

  lemma {:induction false} NeverStale(ls: seq<Label>)
    requires NoLateStop(ls) && !Exec(ls).sh.b.expired
    ensures !StaleWaits(Exec(ls))
  {
    if ls != [] {
      var before, l := ls[..|ls| - 1], ls[|ls| - 1];
      forall i | 0 <= i < |before|
        ensures !LateStop(Exec(before[..i]), before[i])
      {
        assert before[..i] == ls[..i] && !LateStop(Exec(ls[..i]), ls[i]);
      }
      if Exec(before).sh.b.expired {
        ExpiryStays(before, l);
      }
      NeverStale(before);
      StaleExactlyAfterLateStop(before, l);
    }
  }

  lemma ExpiryStays(ls: seq<Label>, l: Label)
    requires Exec(ls).sh.b.expired
    ensures Step(Exec(ls), l).sh.b.expired
  {
    ExpiryIsFinal(ls, [l]);
    assert (ls + [l])[..|ls|] == ls;
  }

  // In a run without a late stop, a bond is only ever expired by the callback of
  // the timer it tracks.
  lemma ExpiredByTheTrackedTimer(ls: seq<Label>, l: Label)
    requires NoLateStop(ls) && !Exec(ls).sh.b.expired && Step(Exec(ls), l).sh.b.expired
    ensures var s := Exec(ls);
            && l.Run? && l.t < |s.threads| && s.threads[l.t].TimerBody?
            && s.sh.b.timer == Some(s.threads[l.t].id)
  {
    NeverStale(ls);
    var s := Exec(ls);
    if l.Run? && l.t < |s.threads| {
      ActExpires(s.sh, l.t, s.threads[l.t], l.rotation, l.outcome);
      assert !Stale(s, l.t);
    }
  }

  lemma ActExpires(sh: Shared, t: ThreadId, pc: Pc, rotation: nat, outcome: Outcome)
    requires !sh.b.expired && Act(sh, t, pc, rotation, outcome).sh.b.expired
    ensures pc.TimerBody?
  {
  }

  // ---- A grace period can be cut short ------------------------------------

  function Go(t: ThreadId): Label {
    Run(t, 0, WriteOk)
  }

  lemma Next(ls: seq<Label>, l: Label) returns (next: seq<Label>)
    ensures ls <= next && Exec(next) == Step(Exec(ls), l)
  {
    next := ls + [l];
    assert next[..|ls|] == ls;
  }

  // One step of thread t that lands it at pc with the shared state sh.
  lemma MovesWith(ls: seq<Label>, t: ThreadId, outcome: Outcome, sh: Shared, pc: Pc) returns (next: seq<Label>)
    requires t < |Exec(ls).threads|
    requires Act(Exec(ls).sh, t, Exec(ls).threads[t], 0, outcome) == Move(sh, pc, None)
    ensures ls <= next && Exec(next) == Exec(ls).(sh := sh, threads := Exec(ls).threads[t := pc])
  {
    next := Next(ls, Run(t, 0, outcome));
  }

  lemma Moves(ls: seq<Label>, t: ThreadId, sh: Shared, pc: Pc) returns (next: seq<Label>)
    requires t < |Exec(ls).threads|
    requires Act(Exec(ls).sh, t, Exec(ls).threads[t], 0, WriteOk) == Move(sh, pc, None)
    ensures ls <= next && Exec(next) == Exec(ls).(sh := sh, threads := Exec(ls).threads[t := pc])
  {
    next := MovesWith(ls, t, WriteOk, sh, pc);
  }

  // AddConn, undisturbed, on an open bond: the path is listed,
  lemma PathInstalls(ls: seq<Label>) returns (next: seq<Label>)
    requires var sh := Exec(ls).sh; sh.mu == None && !sh.b.closed && !sh.b.expired
    ensures var s, p := Exec(ls), |Exec(ls).sh.log|;
            Exec(next) == s.(sh := s.sh.(b := Install(s.sh.b, p), hadPath := true, log := s.sh.log + [[]]),
                             threads := s.threads + [AddNotify(p)])
  {
    var s, p, t := Exec(ls), |Exec(ls).sh.log|, |Exec(ls).threads|;
    var sh := s.sh.(log := s.sh.log + [[]]);
    next := Next(ls, CallAddConn);
    next := Moves(next, t, sh.(mu := Some(t)), AddBody(p));
    next := Moves(next, t, sh.(b := Install(sh.b, p), hadPath := true), AddNotify(p));
    assert Exec(next).threads == s.threads + [AddNotify(p)];
  }

  // and being read.
  lemma PathJoins(ls: seq<Label>) returns (next: seq<Label>)
    requires var sh := Exec(ls).sh; sh.mu == None && !sh.b.closed && !sh.b.expired
    ensures var s, p := Exec(ls), |Exec(ls).sh.log|;
            Exec(next) == s.(sh := s.sh.(b := Notify(Install(s.sh.b, p)), hadPath := true, log := s.sh.log + [[]]),
                             threads := s.threads + [Stopped, Reading(p)])
  {
    var s, p, t := Exec(ls), |Exec(ls).sh.log|, |Exec(ls).threads|;
    next := PathInstalls(ls);
    var sh := Exec(next).sh;
    next := Moves(next, t, sh.(b := Notify(sh.b)), AddSpawn(p));
    next := Next(next, Go(t));
    assert Exec(next).threads == s.threads + [Stopped, Reading(p)];
  }

  // Its reader fails, undisturbed, when it was the only path: the bond is empty,
  lemma PathDetaches(ls: seq<Label>, t: ThreadId, p: PathId) returns (next: seq<Label>)
    requires t < |Exec(ls).threads| && Exec(ls).threads[t] == Reading(p)
    requires Exec(ls).sh.mu == None && Exec(ls).sh.b.paths == [p]
    ensures var s := Exec(ls);
            && ls <= next
            && Exec(next) == s.(sh := s.sh.(b := s.sh.b.(paths := [])),
                                threads := s.threads[t := RemoveCount(p, Return)])
  {
    var sh := Exec(ls).sh;
    assert Detach(sh.b, p) == sh.b.(paths := []);
    next := Moves(ls, t, sh, Remove(p, Return));
    next := Moves(next, t, sh.(b := sh.b.(paths := [])), RemoveCount(p, Return));
  }

  // and a timer is armed.
  lemma GraceStarts(ls: seq<Label>, t: ThreadId, p: PathId) returns (next: seq<Label>)
    requires t < |Exec(ls).threads| && Exec(ls).threads[t] == RemoveCount(p, Return)
    requires Exec(ls).sh.mu == None && !Exec(ls).sh.b.closed && Quiet(Exec(ls).sh)
    ensures var s := Exec(ls);
            && ls <= next
            && Exec(next) == s.(sh := s.sh.(b := ArmGrace(s.sh.b)), threads := s.threads[t := RemoveNotify(p, Return)])
  {
    var sh := Exec(ls).sh;
    next := Moves(ls, t, sh, Grace(AfterRemove(p, Return)));
    next := Moves(next, t, sh.(mu := Some(t)), Arm(AfterRemove(p, Return)));
    next := Moves(next, t, sh.(b := ArmGrace(sh.b)), RemoveNotify(p, Return));
  }

  lemma PathLost(ls: seq<Label>, t: ThreadId, p: PathId) returns (next: seq<Label>)
    requires t < |Exec(ls).threads| && Exec(ls).threads[t] == Reading(p)
    requires var sh := Exec(ls).sh;
             sh.mu == None && !sh.b.closed && sh.b.paths == [p] && sh.b.timer == None && !sh.b.expired
    ensures var s := Exec(ls);
            && ls <= next
            && Exec(next) == s.(sh := s.sh.(b := ArmGrace(s.sh.b.(paths := []))),
                                threads := s.threads[t := RemoveNotify(p, Return)])
  {
    next := PathDetaches(ls, t, p);
    next := GraceStarts(next, t, p);
  }

  // Timer 0 fires and waits for the lock,
  lemma TimerWaits() returns (ls: seq<Label>)
    ensures Exec(ls).sh == Shared(Bond(false, [], Some(0), false, {}, 1, true), None, Fresh, false, true, [[]])
    ensures Exec(ls).threads == [Stopped, RemoveNotify(0, Return), TimerBody(0)]
  {
    ls := PathJoins([]);
    ls := PathLost(ls, 1, 0);
    ls := Next(ls, Fire(0));
  }

  // while a second path joins and is lost.
  lemma StaleTimerWaits() returns (ls: seq<Label>)
    ensures Exec(ls).sh == Shared(Bond(false, [], Some(1), false, {1}, 2, true), None, Fresh, false, true, [[], []])
    ensures |Exec(ls).threads| > 2 && Exec(ls).threads[2] == TimerBody(0)
  {
    ls := TimerWaits();
    ls := PathJoins(ls);
    assert Exec(ls).threads == [Stopped, RemoveNotify(0, Return), TimerBody(0), Stopped, Reading(1)];
    ls := PathLost(ls, 4, 1);
  }

  // After a late stop a whole grace period is not promised: the stale callback of
  // timer 0 ends the bond although timer 1, armed for the current empty period, is
  // still running.
  lemma StaleTimerEndsALaterGrace()
    ensures exists ls ::
              && |Exec(ls).threads| > 2 && Exec(ls).threads[2] == TimerBody(0)
              && Exec(ls).sh.b.timer == Some(1) && 1 in Exec(ls).sh.b.armed
              && Stale(Exec(ls), 2) && Step(Exec(ls), Go(2)).sh.b.expired
  {
    var ls := StaleTimerWaits();
    assert Act(Exec(ls).sh, 2, TimerBody(0), 0, WriteOk).sh.b.expired;
  }

  // ---- What a stale callback can do ---------------------------------------

  // Thread u's stale callback can run as soon as the bond is empty.
  ghost predicate Poised(s: State, u: ThreadId) {
    s.sh.mu == None && !s.sh.b.closed && !s.sh.b.expired && Stale(s, u)
  }

  // The lock holder, if any, lets go of the lock.
  lemma LetsGo(ls: seq<Label>, u: ThreadId) returns (next: seq<Label>)
    requires !Exec(ls).sh.b.closed && !Exec(ls).sh.b.expired && Stale(Exec(ls), u)
    ensures ls <= next && Poised(Exec(next), u)
  {
    ExecInv(ls);
    ExecIds(ls);
    next := ls;
    if Exec(ls).sh.mu.Some? {
      var t := Exec(ls).sh.mu.value;
      var m := Holding(Exec(ls).sh, Exec(ls).threads[t]);
      next := Moves(ls, t, m.sh, m.pc);
    }
  }

  // A writer on an open bond with paths gets as far as its snapshot of them,
  lemma WriterCalls(ls: seq<Label>) returns (next: seq<Label>)
    requires !Exec(ls).sh.b.closed
    ensures ls <= next && Exec(next) == Exec(ls).(threads := Exec(ls).threads + [WriteSnapshot])
  {
    WriterCallSteps(Exec(ls));
    next := Next(ls, CallWriteTo);
    next := Next(next, Go(|Exec(ls).threads|));
  }

  lemma WriterCallSteps(s: State)
    requires !s.sh.b.closed
    ensures Step(Step(s, CallWriteTo), Go(|s.threads|)) == s.(threads := s.threads + [WriteSnapshot])
  {
    var called := s.threads + [WriteCheck];
    assert Step(s, CallWriteTo).threads == called;
    assert called[|s.threads| := WriteSnapshot] == s.threads + [WriteSnapshot];
  }

  lemma WriterLooks(ls: seq<Label>) returns (next: seq<Label>)
    requires var sh := Exec(ls).sh; sh.mu == None && !sh.b.closed && sh.b.paths != []
    ensures var s := Exec(ls);
            ls <= next && Exec(next) == s.(threads := s.threads + [WriteTry(Rotate(s.sh.b.paths, 0))])
  {
    var s, w := Exec(ls), |Exec(ls).threads|;
    next := WriterCalls(ls);
    next := Moves(next, w, s.sh, WriteTry(Rotate(s.sh.b.paths, 0)));
    assert Exec(next).threads == s.threads + [WriteTry(Rotate(s.sh.b.paths, 0))];
  }

  // fails for good on the first of them and takes that one out.
  lemma WriterFails(ls: seq<Label>, w: ThreadId, rest: seq<PathId>) returns (next: seq<Label>)
    requires w < |Exec(ls).threads| && Exec(ls).sh.mu == None && rest != [] && rest[0] in Exec(ls).sh.b.paths
    requires Exec(ls).threads[w] == WriteTry(rest)
    ensures var s := Exec(ls);
            && ls <= next
            && Exec(next) == s.(sh := s.sh.(b := Detach(s.sh.b, rest[0])),
                                threads := s.threads[w := RemoveCount(rest[0], WriteRest(rest[1..]))])
  {
    var sh, k := Exec(ls).sh, WriteRest(rest[1..]);
    next := MovesWith(ls, w, Permanent, sh, Remove(rest[0], k));
    next := Moves(next, w, sh.(b := Detach(sh.b, rest[0])), RemoveCount(rest[0], k));
  }

  lemma WriterRemoves(ls: seq<Label>) returns (next: seq<Label>)
    requires var sh := Exec(ls).sh; sh.mu == None && !sh.b.closed && sh.b.paths != []
    ensures var s := Exec(ls);
            && ls <= next && |Exec(next).threads| == |s.threads| + 1 && Exec(next).threads[..|s.threads|] == s.threads
            && Exec(next).sh == s.sh.(b := s.sh.b.(paths := s.sh.b.paths[1..]))
  {
    var paths := Exec(ls).sh.b.paths;
    RotateAt(paths, 0, 0);
    assert Without(paths, paths[0]) == paths[1..];
    next := WriterLooks(ls);
    next := WriterFails(next, |Exec(ls).threads|, Rotate(paths, 0));
  }

  lemma {:induction false} Empties(ls: seq<Label>, u: ThreadId) returns (next: seq<Label>)
    requires Poised(Exec(ls), u)
    ensures ls <= next && Poised(Exec(next), u) && Exec(next).sh.b.paths == []
    decreases |Exec(ls).sh.b.paths|
  {
    next := ls;
    if Exec(ls).sh.b.paths != [] {
      next := WriterRemoves(ls);
      assert Exec(next).threads[u] == Exec(ls).threads[u];
      next := Empties(next, u);
    }
  }

  // From every reachable open and unexpired state, a stale callback that waits can
  // be the one that expires the bond: whatever the state, there is a continuation in
  // which it does so while it is stale.
  lemma StaleCallbackCanExpire(ls: seq<Label>, u: ThreadId)
    requires !Exec(ls).sh.b.closed && !Exec(ls).sh.b.expired && Stale(Exec(ls), u)
    ensures exists next ::
              ls <= next && !Exec(next).sh.b.expired && Stale(Exec(next), u) && Step(Exec(next), Go(u)).sh.b.expired
  {
    var next := LetsGo(ls, u);
    next := Empties(next, u);
    StaleExpires(Exec(next), u);
  }

  lemma StaleExpires(s: State, u: ThreadId)
    requires Poised(s, u) && s.sh.b.paths == []
    ensures Step(s, Go(u)).sh.b.expired
  {
  }
}
