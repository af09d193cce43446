// An open bond that has lost all its paths comes to an end, or gets a path again,
// within a bounded number of turns of the goroutine or timer whose turn matters.
module BondEnding {
  import opened Prelude
  import opened BondRaces
  import opened BondOwnership
  import opened BondClosing
  import opened BondGrace
  import opened BondTheorems

  // A thread has found the bond empty, holds the lock and is about to arm a timer.
  predicate Arming(s: State) {
    s.sh.mu.Some? && s.sh.mu.value < |s.threads| && s.threads[s.sh.mu.value].Arm?
  }

  // A thread is at the start of startEmptyGrace.
  ghost predicate Gracing(s: State) {
    exists t :: 0 <= t < |s.threads| && s.threads[t].Grace?
  }

  // The steps that bring an abandoned bond nearer to its end: of an expired bond,
  // those of Close; otherwise those of whoever holds the lock, of a callback, of a
  // thread that looks after the empty bond, and the firing of the tracked timer.
  ghost predicate Helps(s: State, l: Label) {
    var b := s.sh.b;
    match l
    case Fire(id) => !b.expired && b.timer == Some(id) && id in b.armed
    case Run(t, _, _) =>
      t < |s.threads| &&
      var pc := s.threads[t];
      if b.expired then pc.CloseSignal? || (pc.CloseEnter? && s.sh.once == Fresh)
      else
        || s.sh.mu == Some(t)
        || (s.sh.mu == None && pc.TimerBody?)
        || (s.sh.mu == None && b.timer == None && (pc.Grace? || (pc.RemoveCount? && !Gracing(s))))
    case _ => false
  }

  // How many such steps are left at most.
  ghost function Rank(s: State): (r: nat)
    ensures 1 <= r <= 7
  {
    var b := s.sh.b;
    if b.expired then (if s.sh.once == Fresh then 2 else 1)
    else if b.timer.Some? then (if b.timer.value in b.armed then 4 else 3)
    else if Arming(s) then 5
    else if Gracing(s) then 6
    else 7
  }

  // ---- One thread's step --------------------------------------------------

  // What a step does on the way from one abandoned state to another.
  ghost predicate RankMove(sh: Shared, t: ThreadId, pc: Pc, m: Move) {
    var b, b' := sh.b, m.sh.b;
    && (b.expired ==> b'.expired && (sh.once != Fresh ==> m.sh.once != Fresh))
    && (b.expired ==> !pc.CloseSignal? && (pc.CloseEnter? && sh.once == Fresh ==> m.sh.once != Fresh))
    && (!b.expired && sh.mu == Some(t) ==> b.timer == None && b'.timer.Some?)
    && (!b.expired && sh.mu == None && pc.TimerBody? ==> b'.expired)
    && (!b.expired && !b'.expired ==>
          && (b.timer.Some? ==> b'.timer == b.timer && b'.armed == b.armed)
          && (b.timer == None && b'.timer.Some? ==> b'.timer.value in b'.armed)
          && (sh.mu.Some? && b'.timer == None ==> m.sh.mu == sh.mu && (pc.Grace? ==> m.pc == pc))
          && (sh.mu == None && b.timer == None && pc.Grace? ==> m.pc.Arm? && m.sh.mu == Some(t))
          && (sh.mu == None && b.timer == None && pc.RemoveCount? ==> m.pc.Grace?))
  }

  lemma LockedRank(sh: Shared, t: ThreadId, pc: Pc, rotation: nat)
    requires NeedsLock(pc) && sh.mu == None && Abandoned(sh) && TimerInv(sh) && CloseFacts(sh, pc)
    requires Abandoned(Locked(sh, t, pc, rotation).sh)
    ensures RankMove(sh, t, pc, Locked(sh, t, pc, rotation))
  {
  }

  lemma FreeRank(sh: Shared, t: ThreadId, pc: Pc, outcome: Outcome)
    requires !NeedsLock(pc) && !InSection(pc) && sh.mu != Some(t) && Abandoned(sh)
    requires Abandoned(Free(sh, pc, outcome).sh)
    ensures RankMove(sh, t, pc, Free(sh, pc, outcome))
  {
  }

  lemma ActRank(s: State, t: ThreadId, rotation: nat, outcome: Outcome)
    requires t < |s.threads| && LockInv(s) && CloseInv(s) && GraceInv(s) && Abandoned(s.sh)
    requires Abandoned(Act(s.sh, t, s.threads[t], rotation, outcome).sh)
    ensures RankMove(s.sh, t, s.threads[t], Act(s.sh, t, s.threads[t], rotation, outcome))
  {
    var pc := s.threads[t];
    assert CloseFacts(s.sh, pc);
    if NeedsLock(pc) {
      if s.sh.mu == None {
        LockedRank(s.sh, t, pc, rotation);
      }
    } else if InSection(pc) {
      assert RankMove(s.sh, t, pc, Holding(s.sh, pc));
    } else {
      FreeRank(s.sh, t, pc, outcome);
    }
  }

  // ---- The whole state ----------------------------------------------------

  lemma TakeRank(s: State, l: Label, m: Move)
    requires l.Run? && l.t < |s.threads| && LockInv(s)
    requires RankMove(s.sh, l.t, s.threads[l.t], m) && LockMove(s.sh, l.t, m)
    ensures Rank(Take(s, l.t, m)) <= Rank(s)
    ensures Helps(s, l) ==> Rank(Take(s, l.t, m)) < Rank(s)
  {
    var s' := Take(s, l.t, m);
    assert s'.threads[l.t] == m.pc;
    if Gracing(s) {
      var u :| 0 <= u < |s.threads| && s.threads[u].Grace?;
      assert u == l.t || s'.threads[u].Grace?;
    }
  }

  lemma CallRank(s: State, l: Label)
    requires !l.Run? || l.t >= |s.threads|
    ensures Rank(Step(s, l)) <= Rank(s)
    ensures Helps(s, l) ==> Rank(Step(s, l)) < Rank(s)
  {
    var s' := Step(s, l);
    if Gracing(s) {
      var u :| 0 <= u < |s.threads| && s.threads[u].Grace?;
      assert s'.threads[u].Grace?;
    }
  }

  lemma HelpLowersRank(s: State, l: Label)
    requires Inv(s) && Abandoned(s.sh) && Abandoned(Step(s, l).sh)
    ensures Rank(Step(s, l)) <= Rank(s)
    ensures Helps(s, l) ==> Rank(Step(s, l)) < Rank(s)
  {
    if l.Run? && l.t < |s.threads| {
      ActRank(s, l.t, l.rotation, l.outcome);
      ActLock(s.sh, l.t, s.threads[l.t], l.rotation, l.outcome);
      TakeRank(s, l, Act(s.sh, l.t, s.threads[l.t], l.rotation, l.outcome));
    } else {
      CallRank(s, l);
    }
  }

  // Steps of the threads and timers already there: no new call arrives.
  predicate Internal(l: Label) {
    l.Run? || l.Fire?
  }

  // There is always such a step to take.
  lemma HelpIsAtHand(s: State) returns (l: Label)
    requires Inv(s) && Abandoned(s.sh)
    ensures Internal(l) && Helps(s, l)
  {
    var b := s.sh.b;
    var t: ThreadId := 0;
    if b.expired {
      if s.sh.once == Running {
        t :| 0 <= t < |s.threads| && s.threads[t].CloseSignal?;
      } else {
        t :| 0 <= t < |s.threads| && Closer(s.threads[t]);
        assert CloseFacts(s.sh, s.threads[t]);
      }
    } else if s.sh.mu.Some? {
      t := s.sh.mu.value;
    } else if b.timer.Some? {
      if b.timer.value in b.armed {
        return Fire(b.timer.value);
      }
      t :| 0 <= t < |s.threads| && s.threads[t] == TimerBody(b.timer.value);
    } else if Gracing(s) {
      t :| 0 <= t < |s.threads| && s.threads[t].Grace?;
    } else {
      t :| 0 <= t < |s.threads| && Watching(s.threads[t]);
    }
    l := Run(t, 0, WriteOk);
  }

  // ---- Whole runs ---------------------------------------------------------

  // How many of the steps of `more` after `ls` are such steps.
  ghost function HelpfulTurns(ls: seq<Label>, more: seq<Label>): nat {
    if more == [] then 0
    else
      var before := more[..|more| - 1];
      HelpfulTurns(ls, before) + if Helps(Exec(ls + before), more[|more| - 1]) then 1 else 0
  }

  ghost predicate AbandonedThroughout(ls: seq<Label>, more: seq<Label>) {
    forall i :: 0 <= i <= |more| ==> Abandoned(Exec(ls + more[..i]).sh)
  }

  lemma {:induction false} TurnsUseRank(ls: seq<Label>, more: seq<Label>)
    requires AbandonedThroughout(ls, more)
    ensures HelpfulTurns(ls, more) + Rank(Exec(ls + more)) <= Rank(Exec(ls))
  {
    if more == [] {
      assert ls + more == ls;
    } else {
      var before := more[..|more| - 1];
      forall i | 0 <= i <= |before|
        ensures Abandoned(Exec(ls + before[..i]).sh)
      {
        assert before[..i] == more[..i];
      }
      TurnsUseRank(ls, before);
      assert before[..|before|] == before && more[..|more|] == more;
      ExecInv(ls + before);
      ExecSnoc(ls, more);
      HelpLowersRank(Exec(ls + before), more[|more| - 1]);
    }
  }

  // However the steps are scheduled, an open bond that has had a path is empty for
  // at most six helpful turns: any schedule that gives them a seventh has closed it
  // or given it a path in between.
  lemma AbandonedForSixTurns(ls: seq<Label>, more: seq<Label>)
    requires AbandonedThroughout(ls, more)
    ensures HelpfulTurns(ls, more) <= 6
  {
    TurnsUseRank(ls, more);
  }

  lemma HelpfulStep(ls: seq<Label>) returns (l: Label)
    requires Abandoned(Exec(ls).sh)
    ensures Internal(l) && (Abandoned(Exec(ls + [l]).sh) ==> Rank(Exec(ls + [l])) < Rank(Exec(ls)))
  {
    ExecInv(ls);
    l := HelpIsAtHand(Exec(ls));
    assert (ls + [l])[..|ls|] == ls;
    if Abandoned(Step(Exec(ls), l).sh) {
      HelpLowersRank(Exec(ls), l);
    }
  }

  // A run that `more` internal steps have ended.
  ghost predicate EndedBy(ls: seq<Label>, more: seq<Label>) {
    (forall l :: l in more ==> Internal(l)) && !Abandoned(Exec(ls + more).sh)
  }

  lemma EndedLater(ls: seq<Label>, l: Label, rest: seq<Label>)
    requires Internal(l) && EndedBy(ls + [l], rest)
    ensures EndedBy(ls, [l] + rest)
  {
    assert ls + ([l] + rest) == (ls + [l]) + rest;
  }

  lemma EndedAlready(ls: seq<Label>)
    requires !Abandoned(Exec(ls).sh)
    ensures EndedBy(ls, [])
  {
    assert ls + [] == ls;
  }

  lemma {:induction false} ReachesAnEnd(ls: seq<Label>, r: nat) returns (more: seq<Label>)
    requires Abandoned(Exec(ls).sh) ==> Rank(Exec(ls)) <= r
    ensures |more| <= r && EndedBy(ls, more)
    decreases r
  {
    more := [];
    if Abandoned(Exec(ls).sh) {
      var l := HelpfulStep(ls);
      var rest := ReachesAnEnd(ls + [l], r - 1);
      more := [l] + rest;
      EndedLater(ls, l, rest);
    } else {
      EndedAlready(ls);
    }
  }

  // An open bond that has had a path and is empty is never stuck: in every
  // reachable state a timer is set, or it has expired, or a remover is about to
  // arm one; some step of the threads and timers already there helps; and at most
  // seven of them in a row close it or give it a path, without any new call.
  lemma EmptyBondIsNeverStuck(ls: seq<Label>)
    requires Abandoned(Exec(ls).sh)
    ensures Exec(ls).sh.b.expired || Exec(ls).sh.b.timer.Some? || Watched(Exec(ls))
    ensures exists l :: Internal(l) && Helps(Exec(ls), l)
    ensures exists more: seq<Label> ::
              && |more| <= 7 && (forall l :: l in more ==> Internal(l))
              && (Exec(ls + more).sh.b.closed || Exec(ls + more).sh.b.paths != [])
  {
    ExecInv(ls);
    var l := HelpIsAtHand(Exec(ls));
    var more := ReachesAnEnd(ls, 7);
    HadPathStays(ls, more);
  }

  lemma {:induction false} HadPathStays(ls: seq<Label>, more: seq<Label>)
    requires Exec(ls).sh.hadPath
    ensures Exec(ls + more).sh.hadPath
  {
    if more == [] {
      assert ls + more == ls;
    } else {
      HadPathStays(ls, more[..|more| - 1]);
      ExecSnoc(ls, more);
      HadPathKept(Exec(ls + more[..|more| - 1]), more[|more| - 1]);
    }
  }

  lemma HadPathKept(s: State, l: Label)
    requires s.sh.hadPath
    ensures Step(s, l).sh.hadPath
  {
    if l.Run? && l.t < |s.threads| {
      var pc := s.threads[l.t];
      assert NeedsLock(pc) ==> Locked(s.sh, l.t, pc, l.rotation).sh.hadPath;
      assert InSection(pc) ==> Holding(s.sh, pc).sh.hadPath;
    }
  }
}
