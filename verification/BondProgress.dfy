// In every interleaving: each call gets nearer to its end by its own steps, Close
// gets done and returns only when it is, and every path is being read.
module BondProgress {
  import opened Prelude
  import opened BondRaces
  import opened BondOwnership
  import opened BondClosing
  import opened BondTheorems
  import BondedConn

  type PathId = BondedConn.PathId

  // ---- Own steps ----------------------------------------------------------

  // How many steps a thread has at most to take, with n paths listed, until its call
  // has ended. A reader counts from the moment its read fails.
  function StepsLeft(pc: Pc, n: nat): nat {
    match pc
    case AddCheck(_) => 7
    case AddBody(_) => 6
    case AddNotify(_) => 2
    case AddSpawn(_) => 1
    case Reading(_) => 12
    case Remove(_, k) => 11 + StepsAfter(k)
    case RemoveCount(_, k) => 8 + StepsAfter(k)
    case RemoveNotify(_, k) => 5 + StepsAfter(k)
    case Retire(_, done, k) => (if done < 3 then 4 - done else 1) + StepsAfter(k)
    case Grace(caller) => 1 + GraceSteps(caller)
    case Arm(caller) => GraceSteps(caller)
    case TimerBody(_) => 12 * n + 7
    case CloseEnter => 12 * n + 6
    case CloseSignal => 12 * n + 5
    case CloseTimer => 12 * n + 4
    case CloseNotify => 12 * n + 3
    case CloseSnapshot => 12 * n + 2
    case CloseLoop(rest) => 12 * |rest| + 1
    case WriteCheck => 12 * n + 10
    case WriteSnapshot => 12 * n + 9
    case WriteTry(rest) => 12 * |rest| + 8
    case WriteFinalCheck => 7
    case WriteFinalCount => 6
    case WriteEmptyCheck => 3
    case Stopped => 0
  }

  function StepsAfter(k: Cont): nat {
    match k
    case Return => 0
    case CloseRest(rest) => 12 * |rest| + 1
    case WriteRest(rest) => 12 * |rest| + 8
  }

  function GraceSteps(caller: GraceCaller): nat {
    match caller
    case AfterRemove(_, k) => 6 + StepsAfter(k)
    case AfterEmptyWrite => 4
    case AfterWrite => 4
  }

  // Neither ended, nor held up by the lock, nor waiting for another Close.
  predicate CanMove(sh: Shared, pc: Pc) {
    pc != Stopped && (NeedsLock(pc) ==> sh.mu == None) && !(pc.CloseEnter? && sh.once == Running)
  }

  ghost predicate Nearer(sh: Shared, pc: Pc, m: Move) {
    && StepsLeft(m.pc, |m.sh.b.paths|) < StepsLeft(pc, |sh.b.paths|)
    && (RunsClose(pc) ==> RunsClose(m.pc) || m.sh.once == Finished)
  }

  lemma RemovalNearer(sh: Shared, t: ThreadId, pc: Pc, rotation: nat)
    requires pc.Remove? || pc.RemoveCount? || pc.Grace?
    ensures Nearer(sh, pc, Locked(sh, t, pc, rotation))
  {
  }

  lemma LockedNearer(sh: Shared, t: ThreadId, pc: Pc, rotation: nat)
    requires NeedsLock(pc) && sh.mu == None
    ensures Nearer(sh, pc, Locked(sh, t, pc, rotation))
  {
    if pc.Remove? || pc.RemoveCount? || pc.Grace? {
      RemovalNearer(sh, t, pc, rotation);
    }
  }

  lemma RetireNearer(sh: Shared, pc: Pc, outcome: Outcome)
    requires (pc.Retire? || pc.RemoveNotify? || pc.WriteTry? || pc.CloseLoop?) && ChargedOne(sh, pc)
    ensures Nearer(sh, pc, Free(sh, pc, outcome))
  {
  }

  lemma FreeNearer(sh: Shared, pc: Pc, outcome: Outcome)
    requires !NeedsLock(pc) && !InSection(pc) && CanMove(sh, pc) && ChargedOne(sh, pc)
    ensures Nearer(sh, pc, Free(sh, pc, outcome))
  {
    if pc.Retire? || pc.RemoveNotify? || pc.WriteTry? || pc.CloseLoop? {
      RetireNearer(sh, pc, outcome);
    }
  }

  lemma ActNearer(sh: Shared, t: ThreadId, pc: Pc, rotation: nat, outcome: Outcome)
    requires CanMove(sh, pc) && ChargedOne(sh, pc)
    ensures Nearer(sh, pc, Act(sh, t, pc, rotation, outcome))
  {
    if NeedsLock(pc) {
      LockedNearer(sh, t, pc, rotation);
    } else if !InSection(pc) {
      FreeNearer(sh, pc, outcome);
    }
  }

  // In every run, each step of a thread that can move brings its call nearer to its
  // end; and the thread that runs Close runs it until Close has finished.
  lemma OwnStepsEnd(ls: seq<Label>, l: Label)
    requires l.Run? && l.t < |Exec(ls).threads| && CanMove(Exec(ls).sh, Exec(ls).threads[l.t])
    ensures var s, s' := Exec(ls), Step(Exec(ls), l);
            && StepsLeft(s'.threads[l.t], |s'.sh.b.paths|) < StepsLeft(s.threads[l.t], |s.sh.b.paths|)
            && (RunsClose(s.threads[l.t]) ==> RunsClose(s'.threads[l.t]) || s'.sh.once == Finished)
  {
    ExecInv(ls);
    var s := Exec(ls);
    assert ChargedOne(s.sh, s.threads[l.t]);
    ActNearer(s.sh, l.t, s.threads[l.t], l.rotation, l.outcome);
  }

  // ---- Close --------------------------------------------------------------

  ghost predicate SomeCloser(s: State) {
    exists t :: 0 <= t < |s.threads| && RunsClose(s.threads[t])
  }

  ghost predicate CloserMove(sh: Shared, pc: Pc, m: Move) {
    && (m.sh.once == Running ==> RunsClose(m.pc) || (sh.once == Running && !RunsClose(pc)))
    && ((pc.CloseEnter? || pc.CloseLoop?) && m.pc == Stopped ==> m.sh.once == Finished)
  }

  lemma ActCloser(sh: Shared, t: ThreadId, pc: Pc, rotation: nat, outcome: Outcome)
    requires ChargedOne(sh, pc)
    ensures CloserMove(sh, pc, Act(sh, t, pc, rotation, outcome))
  {
    if CanMove(sh, pc) {
      ActNearer(sh, t, pc, rotation, outcome);
    }
    if NeedsLock(pc) {
    } else if !InSection(pc) {
      assert CloserMove(sh, pc, Free(sh, pc, outcome)) by { FreeCloser(sh, pc, outcome); }
    }
  }

  lemma FreeCloser(sh: Shared, pc: Pc, outcome: Outcome)
    requires !NeedsLock(pc) && !InSection(pc) && ChargedOne(sh, pc)
    ensures CloserMove(sh, pc, Free(sh, pc, outcome))
  {
  }

  lemma CloserStep(s: State, l: Label)
    requires OwnerInv(s) && (s.sh.once == Running ==> SomeCloser(s))
    ensures Step(s, l).sh.once == Running ==> SomeCloser(Step(s, l))
  {
    var s' := Step(s, l);
    if l.Run? && l.t < |s.threads| {
      var pc := s.threads[l.t];
      assert ChargedOne(s.sh, pc);
      ActCloser(s.sh, l.t, pc, l.rotation, l.outcome);
      assert s'.threads[l.t] == Act(s.sh, l.t, pc, l.rotation, l.outcome).pc;
    }
    if s'.sh.once == Running && SomeCloser(s) {
      var u :| 0 <= u < |s.threads| && RunsClose(s.threads[u]);
      assert (l.Run? && l.t == u) || s'.threads[u] == s.threads[u];
    }
  }

  // While Close has begun and not finished, some thread is running it, and with
  // OwnStepsEnd its own steps finish it.
  lemma {:induction false} CloseHasItsCloser(ls: seq<Label>)
    ensures Exec(ls).sh.once == Running ==> SomeCloser(Exec(ls))
  {
    if ls != [] {
      CloseHasItsCloser(ls[..|ls| - 1]);
      ExecInv(ls[..|ls| - 1]);
      CloserStep(Exec(ls[..|ls| - 1]), ls[|ls| - 1]);
    }
  }

  // Every call of Close, not only the one that does the work, returns only when the
  // bond is closed, empty and no longer being closed.
  lemma CloseReturnsWhenDone(ls: seq<Label>, l: Label)
    requires l.Run? && l.t < |Exec(ls).threads|
    requires Exec(ls).threads[l.t].CloseEnter? || Exec(ls).threads[l.t].CloseLoop?
    requires Step(Exec(ls), l).threads[l.t] == Stopped
    ensures var sh := Step(Exec(ls), l).sh; sh.once == Finished && sh.b.closed && sh.b.paths == []
  {
    ExecInv(ls);
    InvStep(Exec(ls), l);
    var s := Exec(ls);
    assert ChargedOne(s.sh, s.threads[l.t]);
    ActCloser(s.sh, l.t, s.threads[l.t], l.rotation, l.outcome);
  }

  // ---- Readers ------------------------------------------------------------

  // Reads p, is about to start its reader, or is its reader waiting to remove it.
  predicate Reads(pc: Pc, p: PathId) {
    pc == AddNotify(p) || pc == AddSpawn(p) || pc == Reading(p) || pc == Remove(p, Return)
  }

  ghost predicate Read(s: State, p: PathId) {
    exists t :: 0 <= t < |s.threads| && Reads(s.threads[t], p)
  }

  // A step that stops reading p hands it to a reader it starts, or takes it out.
  ghost predicate ReadMove(sh: Shared, pc: Pc, m: Move, p: PathId) {
    && (Reads(pc, p) ==>
          Reads(m.pc, p) || m.spawned == Some(Reading(p)) || (pc == Remove(p, Return) && p !in m.sh.b.paths))
    && (p in m.sh.b.paths ==> p in sh.b.paths || Reads(m.pc, p))
  }

  lemma LockedReads(sh: Shared, t: ThreadId, pc: Pc, rotation: nat, p: PathId)
    requires NeedsLock(pc) && Listed(sh)
    ensures ReadMove(sh, pc, Locked(sh, t, pc, rotation), p)
  {
    if pc.Remove? {
      WithoutDistinct(sh.b.paths, pc.p);
    }
  }

  lemma FreeReads(sh: Shared, pc: Pc, outcome: Outcome, p: PathId)
    requires !NeedsLock(pc) && !InSection(pc)
    ensures ReadMove(sh, pc, Free(sh, pc, outcome), p)
  {
  }

  lemma ActReads(sh: Shared, t: ThreadId, pc: Pc, rotation: nat, outcome: Outcome, p: PathId)
    requires Listed(sh)
    ensures ReadMove(sh, pc, Act(sh, t, pc, rotation, outcome), p)
  {
    if NeedsLock(pc) {
      LockedReads(sh, t, pc, rotation, p);
    } else if !InSection(pc) {
      FreeReads(sh, pc, outcome, p);
    }
  }

  lemma ReadStep(s: State, l: Label, p: PathId)
    requires Listed(s.sh) && (p in s.sh.b.paths ==> Read(s, p))
    ensures p in Step(s, l).sh.b.paths ==> Read(Step(s, l), p)
  {
    var s' := Step(s, l);
    if l.Run? && l.t < |s.threads| {
      var m := Act(s.sh, l.t, s.threads[l.t], l.rotation, l.outcome);
      ActReads(s.sh, l.t, s.threads[l.t], l.rotation, l.outcome, p);
      assert s'.threads[l.t] == m.pc;
      if m.spawned == Some(Reading(p)) {
        assert Reads(s'.threads[|s.threads|], p);
      }
    }
    if p in s'.sh.b.paths && p in s.sh.b.paths {
      var u :| 0 <= u < |s.threads| && Reads(s.threads[u], p);
      assert (l.Run? && l.t == u) || Reads(s'.threads[u], p);
    }
  }

  // In every reachable state each listed path has its reader, or one about to start.
  lemma {:induction false} EveryPathIsRead(ls: seq<Label>, p: PathId)
    ensures p in Exec(ls).sh.b.paths ==> Read(Exec(ls), p)
  {
    if ls != [] {
      EveryPathIsRead(ls[..|ls| - 1], p);
      ExecInv(ls[..|ls| - 1]);
      ReadStep(Exec(ls[..|ls| - 1]), ls[|ls| - 1], p);
    }
  }
}
