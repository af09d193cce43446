// In every interleaving: which paths one WriteTo tries, in what order and how far,
// and what it leaves behind when nothing was sent.
module BondWriters {
  import opened Prelude
  import opened RoundRobin
  import opened BondRaces
  import opened BondClosing
  import BondedConn

  type PathId = BondedConn.PathId

  // ---- The attempts of one writer -----------------------------------------

  // The attempt that this step of thread t makes, if it makes one.
  function Attempt(s: State, l: Label, t: ThreadId): seq<(PathId, Outcome)> {
    if l.Run? && l.t == t && t < |s.threads| && s.threads[t].WriteTry? && s.threads[t].rest != []
    then [(s.threads[t].rest[0], l.outcome)]
    else []
  }

  function Attempts(ls: seq<Label>, t: ThreadId): seq<(PathId, Outcome)> {
    if ls == [] then [] else Attempts(ls[..|ls| - 1], t) + Attempt(Exec(ls[..|ls| - 1]), ls[|ls| - 1], t)
  }

  // The paths this step of thread t finds, from where its counter points, if it
  // takes a snapshot that is not empty.
  function Look(s: State, l: Label, t: ThreadId): Option<seq<PathId>> {
    if && l.Run? && l.t == t && t < |s.threads| && s.threads[t].WriteSnapshot?
       && s.sh.mu == None && s.sh.b.paths != []
    then Some(Rotate(s.sh.b.paths, l.rotation))
    else None
  }

  function Looked(ls: seq<Label>, t: ThreadId): Option<seq<PathId>> {
    if ls == [] then None
    else
      var now := Look(Exec(ls[..|ls| - 1]), ls[|ls| - 1], t);
      if now.Some? then now else Looked(ls[..|ls| - 1], t)
  }

  function Paths(attempts: seq<(PathId, Outcome)>): seq<PathId> {
    seq(|attempts|, i requires 0 <= i < |attempts| => attempts[i].0)
  }

  predicate NoneSent(attempts: seq<(PathId, Outcome)>) {
    forall i :: 0 <= i < |attempts| ==> attempts[i].1 != WriteOk
  }

  // Sent by the last attempt and no earlier one.
  predicate SentLast(attempts: seq<(PathId, Outcome)>) {
    attempts != [] && attempts[|attempts| - 1].1 == WriteOk && NoneSent(attempts[..|attempts| - 1])
  }

  // What a writer has still to try, while it is in its loop.
  function Pending(pc: Pc): Option<seq<PathId>> {
    if pc.WriteTry? then Some(pc.rest)
    else match CloseCont(pc)
      case Some(WriteRest(rest)) => Some(rest)
      case _ => None
  }

  // The attempts so far are those of a walk along the snapshot that stops at the
  // first success.
  ghost predicate Walks(pc: Pc, looked: Option<seq<PathId>>, attempts: seq<(PathId, Outcome)>) {
    match looked
    case None => attempts == [] && Pending(pc) == None
    case Some(order) =>
      && !pc.WriteCheck? && !pc.WriteSnapshot?
      && match Pending(pc)
         case Some(rest) => order == Paths(attempts) + rest && NoneSent(attempts)
         case None =>
           || (SentLast(attempts) && Paths(attempts) <= order && pc == Stopped)
           || (NoneSent(attempts) && Paths(attempts) == order)
  }

  // ---- One step -----------------------------------------------------------

  ghost predicate WalkMove(sh: Shared, pc: Pc, outcome: Outcome, rotation: nat, m: Move) {
    && (m.pc.WriteCheck? ==> pc == m.pc) && (m.pc.WriteSnapshot? ==> pc == m.pc || pc.WriteCheck?)
    && (m.spawned.Some? ==> m.spawned.value.Reading?)
    && if pc.WriteTry? && pc.rest != [] then
         if outcome == WriteOk then m.pc == Stopped else Pending(m.pc) == Some(pc.rest[1..])
       else if pc.WriteTry? then Pending(m.pc) == None
       else if pc.WriteSnapshot? && sh.mu == None && sh.b.paths != [] then
         m.pc == WriteTry(Rotate(sh.b.paths, rotation))
       else Pending(m.pc) == Pending(pc) && (pc == Stopped ==> m.pc == Stopped)
  }

  lemma LockedWalk(sh: Shared, t: ThreadId, pc: Pc, rotation: nat, outcome: Outcome)
    requires NeedsLock(pc) && sh.mu == None
    ensures WalkMove(sh, pc, outcome, rotation, Locked(sh, t, pc, rotation))
  {
  }

  lemma FreeWalk(sh: Shared, pc: Pc, rotation: nat, outcome: Outcome)
    requires !NeedsLock(pc) && !InSection(pc)
    ensures WalkMove(sh, pc, outcome, rotation, Free(sh, pc, outcome))
  {
  }

  lemma ActWalk(sh: Shared, t: ThreadId, pc: Pc, rotation: nat, outcome: Outcome)
    ensures WalkMove(sh, pc, outcome, rotation, Act(sh, t, pc, rotation, outcome))
  {
    if NeedsLock(pc) {
      if sh.mu == None {
        LockedWalk(sh, t, pc, rotation, outcome);
      }
    } else if !InSection(pc) {
      FreeWalk(sh, pc, rotation, outcome);
    }
  }

  lemma WalkOn(order: seq<PathId>, attempts: seq<(PathId, Outcome)>, rest: seq<PathId>, outcome: Outcome)
    requires rest != [] && order == Paths(attempts) + rest && NoneSent(attempts)
    ensures var now := attempts + [(rest[0], outcome)];
            && order == Paths(now) + rest[1..]
            && if outcome == WriteOk then SentLast(now) && Paths(now) <= order else NoneSent(now)
  {
    var now := attempts + [(rest[0], outcome)];
    assert Paths(now) == Paths(attempts) + [rest[0]];
    assert rest == [rest[0]] + rest[1..];
    Assoc(Paths(attempts), [rest[0]], rest[1..]);
    assert now[..|attempts|] == attempts;
  }

  lemma TakesWalk(s: State, l: Label, looked: Option<seq<PathId>>, attempts: seq<(PathId, Outcome)>)
    requires l.Run? && l.t < |s.threads| && Walks(s.threads[l.t], looked, attempts)
    ensures var now := Look(s, l, l.t);
            Walks(Step(s, l).threads[l.t], if now.Some? then now else looked, attempts + Attempt(s, l, l.t))
  {
    var pc := s.threads[l.t];
    ActWalk(s.sh, l.t, pc, l.rotation, l.outcome);
    assert attempts + [] == attempts;
    if pc.WriteTry? && pc.rest != [] {
      WalkOn(looked.value, attempts, pc.rest, l.outcome);
    } else if pc.WriteTry? {
      assert Paths(attempts) + [] == Paths(attempts);
    } else if Look(s, l, l.t).Some? {
      assert Paths([]) + Rotate(s.sh.b.paths, l.rotation) == Rotate(s.sh.b.paths, l.rotation);
    }
  }

  lemma {:induction false} WalkInv(ls: seq<Label>, t: ThreadId)
    ensures t < |Exec(ls).threads| ==> Walks(Exec(ls).threads[t], Looked(ls, t), Attempts(ls, t))
    ensures t >= |Exec(ls).threads| ==> Looked(ls, t) == None && Attempts(ls, t) == []
  {
    if ls != [] {
      var before, l := ls[..|ls| - 1], ls[|ls| - 1];
      var s := Exec(before);
      WalkInv(before, t);
      if l.Run? && l.t == t && t < |s.threads| {
        TakesWalk(s, l, Looked(before, t), Attempts(before, t));
      } else {
        OthersWalk(s, l, t);
        assert Attempts(before, t) + [] == Attempts(before, t);
      }
    }
  }

  // Another thread's step leaves t where it was; a new thread is in no loop.
  lemma OthersWalk(s: State, l: Label, t: ThreadId)
    requires !(l.Run? && l.t == t && t < |s.threads|)
    ensures |s.threads| <= |Step(s, l).threads|
    ensures t < |s.threads| ==> Step(s, l).threads[t] == s.threads[t]
    ensures |s.threads| <= t < |Step(s, l).threads| ==> Pending(Step(s, l).threads[t]) == None
    ensures Attempt(s, l, t) == [] && Look(s, l, t) == None
  {
    if l.Run? && l.t < |s.threads| {
      ActWalk(s.sh, l.t, s.threads[l.t], l.rotation, l.outcome);
    }
  }

  // In every run, a writer that has left its loop after a snapshot with paths has
  // tried them from where its counter pointed, each once and in order, up to the
  // first success and all of them without one; after a success it has returned.
  lemma WriterFollowsStripe(ls: seq<Label>, t: ThreadId)
    requires t < |Exec(ls).threads| && Looked(ls, t).Some? && Pending(Exec(ls).threads[t]) == None
    ensures var order, attempts := Looked(ls, t).value, Attempts(ls, t);
            || (SentLast(attempts) && Paths(attempts) <= order && Exec(ls).threads[t] == Stopped)
            || (NoneSent(attempts) && Paths(attempts) == order)
  {
    WalkInv(ls, t);
  }

  // ---- A write that sent nothing ------------------------------------------

  predicate WritesNothing(pc: Pc) {
    || pc.WriteCheck? || pc.WriteSnapshot? || (pc.WriteTry? && pc.rest == [])
    || pc.WriteFinalCheck? || pc.WriteFinalCount?
    || ((pc.Grace? || pc.Arm?) && !pc.caller.AfterRemove?)
  }

  predicate CaredFor(sh: Shared) {
    sh.b.paths != [] || sh.b.timer.Some? || sh.b.expired || sh.b.closed
  }

  predicate UnsentMove(m: Move) {
    if m.pc == Stopped || m.pc == WriteEmptyCheck then CaredFor(m.sh) else WritesNothing(m.pc) || m.pc.WriteTry?
  }

  lemma LockedUnsent(sh: Shared, t: ThreadId, pc: Pc, rotation: nat)
    requires NeedsLock(pc) && WritesNothing(pc)
    ensures UnsentMove(Locked(sh, t, pc, rotation))
  {
  }

  lemma ActUnsent(sh: Shared, t: ThreadId, pc: Pc, rotation: nat, outcome: Outcome)
    requires WritesNothing(pc)
    ensures UnsentMove(Act(sh, t, pc, rotation, outcome))
  {
    if NeedsLock(pc) {
      LockedUnsent(sh, t, pc, rotation);
    } else if InSection(pc) {
      assert UnsentMove(Holding(sh, pc));
    } else {
      assert UnsentMove(Free(sh, pc, outcome));
    }
  }

  // A write that sends nothing never returns leaving an open, unexpired bond without
  // paths and without a grace timer: the step that ends it, or takes it to its last
  // look at the closed channel, finds or leaves the bond cared for.
  lemma UnsentWriteLeavesGrace(ls: seq<Label>, l: Label)
    requires l.Run? && l.t < |Exec(ls).threads| && WritesNothing(Exec(ls).threads[l.t])
    ensures var s' := Step(Exec(ls), l);
            var pc := s'.threads[l.t];
            if pc == Stopped || pc == WriteEmptyCheck then CaredFor(s'.sh) else WritesNothing(pc) || pc.WriteTry?
  {
    var s := Exec(ls);
    ActUnsent(s.sh, l.t, s.threads[l.t], l.rotation, l.outcome);
  }

  // ---- A write on a closed bond -------------------------------------------

  lemma ClosedStays(s: State, l: Label)
    requires s.sh.b.closed
    ensures Step(s, l).sh.b.closed
  {
    if l.Run? && l.t < |s.threads| {
      ActStaysClosed(s.sh, l.t, s.threads[l.t], l.rotation, l.outcome);
    }
  }

  lemma ActStaysClosed(sh: Shared, t: ThreadId, pc: Pc, rotation: nat, outcome: Outcome)
    requires sh.b.closed
    ensures Act(sh, t, pc, rotation, outcome).sh.b.closed
  {
  }

  lemma ClosedWriterStops(s: State, l: Label, t: ThreadId)
    requires s.sh.b.closed && t < |s.threads| && (s.threads[t] == WriteCheck || s.threads[t] == Stopped)
    ensures var s' := Step(s, l);
            t < |s'.threads| && (s'.threads[t] == WriteCheck || s'.threads[t] == Stopped) && Attempt(s, l, t) == []
  {
  }

  ghost predicate NothingTried(ls: seq<Label>, t: ThreadId) {
    && Exec(ls).sh.b.closed && t < |Exec(ls).threads|
    && (Exec(ls).threads[t] == WriteCheck || Exec(ls).threads[t] == Stopped)
    && Attempts(ls, t) == []
  }

  lemma NothingTriedYet(ls: seq<Label>)
    requires Exec(ls).sh.b.closed
    ensures NothingTried(ls + [CallWriteTo], |Exec(ls).threads|)
  {
    assert (ls + [CallWriteTo])[..|ls|] == ls;
    WalkInv(ls, |Exec(ls).threads|);
  }

  lemma NothingTriedStill(ls: seq<Label>, l: Label, t: ThreadId)
    requires NothingTried(ls, t)
    ensures NothingTried(ls + [l], t)
  {
    assert (ls + [l])[..|ls|] == ls;
    ClosedStays(Exec(ls), l);
    ClosedWriterStops(Exec(ls), l, t);
  }

  // A write that is called on a closed bond tries no path, whatever runs meanwhile.
  lemma {:induction false} WriteAfterCloseTriesNothing(ls: seq<Label>, more: seq<Label>)
    requires Exec(ls).sh.b.closed
    ensures NothingTried((ls + [CallWriteTo]) + more, |Exec(ls).threads|)
  {
    var called := ls + [CallWriteTo];
    if more == [] {
      assert called + more == called;
      NothingTriedYet(ls);
    } else {
      var before := more[..|more| - 1];
      WriteAfterCloseTriesNothing(ls, before);
      NothingTriedStill(called + before, more[|more| - 1], |Exec(ls).threads|);
      assert called + more == (called + before) + [more[|more| - 1]];
    }
  }
}
