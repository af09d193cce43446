// Every interleaving of AddConn, readLoop, WriteTo, Close and the grace timer.
//
// A thread is a program counter. One `Run` step is one locked section, or one
// action taken outside the lock: closing the `closed` channel, sending the state
// notification, closing a connection, running a cleanup, closing `done`. The two
// sections that test the `closed` channel and then go on under the same lock are
// split at the test, because Close closes the channel without taking the lock.
module BondRaces {
  import opened Prelude
  import opened BondedConn
  import opened RoundRobin

  type ThreadId = nat

  // What the bond does to one path when it lets go of it.
  datatype Event = ConnClosed | CleanupRan | DoneClosed

  // The order closePath and removePath promise.
  const RETIREMENT: seq<Event> := [ConnClosed, CleanupRan, DoneClosed]

  datatype Once = Fresh | Running | Finished

  // Where a thread goes on after removePath.
  datatype Cont =
    | Return
    | CloseRest(rest: seq<PathId>)
    | WriteRest(rest: seq<PathId>)

  // Who called startEmptyGrace.
  datatype GraceCaller =
    | AfterRemove(path: PathId, next: Cont)
    | AfterEmptyWrite
    | AfterWrite

  datatype Pc =
    // AddConn
    | AddCheck(p: PathId)
    | AddBody(p: PathId)
    | AddNotify(p: PathId)
    | AddSpawn(p: PathId)
    // readLoop
    | Reading(p: PathId)
    // removePath; Retire(p, n) performs RETIREMENT[n]. AddConn's closePath is
    // Retire(p, 0, Return) as well.
    | Remove(p: PathId, k: Cont)
    | RemoveCount(p: PathId, k: Cont)
    | RemoveNotify(p: PathId, k: Cont)
    | Retire(p: PathId, n: nat, k: Cont)
    // startEmptyGrace
    | Grace(caller: GraceCaller)
    | Arm(caller: GraceCaller)
    // the timer callback, waiting for the lock
    | TimerBody(id: TimerId)
    // Close
    | CloseEnter
    | CloseSignal
    | CloseTimer
    | CloseNotify
    | CloseSnapshot
    | CloseLoop(rest: seq<PathId>)
    // WriteTo
    | WriteCheck
    | WriteSnapshot
    | WriteEmptyCheck
    | WriteTry(rest: seq<PathId>)
    | WriteFinalCheck
    | WriteFinalCount
    | Stopped

  // The one reader of the StateChanged channel: it reads Count, then blocks.
  datatype Consumer = Counting | Blocked(seen: nat)

  // What all threads share. `sealed`, `hadPath` and `log` are history: Close has
  // been through its locked section; some path was installed; what happened to
  // each path so far, by path id.
  datatype Shared = Shared(
    b: Bond,
    mu: Option<ThreadId>,
    once: Once,
    sealed: bool,
    hadPath: bool,
    log: seq<seq<Event>>)

  datatype State = State(sh: Shared, threads: seq<Pc>, consumer: Consumer)

  datatype Outcome = WriteOk | Transient | Permanent

  datatype Label =
    | CallAddConn
    | CallWriteTo
    | CallClose
    | Fire(id: TimerId)
    // rotation is where WriteTo's counter points; outcome is the result of a write
    | Run(t: ThreadId, rotation: nat, outcome: Outcome)
    | Consume
    | ConsumeTimeout

  const START := State(Shared(EMPTY_BOND, None, Fresh, false, false, []), [], Counting)

  // The effect of one thread's step: the shared state, where the thread is then,
  // and a thread it started.
  datatype Move = Move(sh: Shared, pc: Pc, spawned: Option<Pc>)

  function Goto(sh: Shared, pc: Pc): Move {
    Move(sh, pc, None)
  }

  function Resume(k: Cont): Pc {
    match k
    case Return => Stopped
    case CloseRest(rest) => CloseLoop(rest)
    case WriteRest(rest) => WriteTry(rest)
  }

  function AfterGrace(caller: GraceCaller): Pc {
    match caller
    case AfterRemove(p, k) => RemoveNotify(p, k)
    case AfterEmptyWrite => WriteEmptyCheck
    case AfterWrite => Stopped
  }

  // Sections that need the lock; called only while it is free.
  function Locked(sh: Shared, t: ThreadId, pc: Pc, rotation: nat): Move
    requires NeedsLock(pc)
  {
    var b := sh.b;
    match pc
    // AddConn: the lock stays held when the closed check passes.
    case AddCheck(p) =>
      if b.closed then Goto(sh, Retire(p, 0, Return)) else Goto(sh.(mu := Some(t)), AddBody(p))
    case Remove(p, k) =>
      if p in b.paths then Goto(sh.(b := Detach(b, p)), RemoveCount(p, k)) else Goto(sh, Resume(k))
    case RemoveCount(p, k) =>
      Goto(sh, if b.paths == [] then Grace(AfterRemove(p, k)) else RemoveNotify(p, k))
    // startEmptyGrace: the lock stays held when a timer is to be armed.
    case Grace(caller) =>
      if b.paths != [] || b.timer.Some? || b.expired || b.closed then Goto(sh, AfterGrace(caller))
      else Goto(sh.(mu := Some(t)), Arm(caller))
    case TimerBody(_) =>
      Goto(sh.(b := Expire(b)), if b.paths != [] then Stopped else CloseEnter)
    case CloseTimer => Goto(sh.(b := StopTimer(b), sealed := true), CloseNotify)
    case CloseSnapshot => Goto(sh, CloseLoop(b.paths))
    case WriteSnapshot =>
      Goto(sh, if b.paths == [] then Grace(AfterEmptyWrite) else WriteTry(Rotate(b.paths, rotation)))
    case WriteFinalCount => Goto(sh, if b.paths == [] then Grace(AfterWrite) else Stopped)
  }

  predicate NeedsLock(pc: Pc) {
    pc.AddCheck? || pc.Remove? || pc.RemoveCount? || pc.Grace? || pc.TimerBody? ||
    pc.CloseTimer? || pc.CloseSnapshot? || pc.WriteSnapshot? || pc.WriteFinalCount?
  }

  // The rest of a section whose thread already holds the lock.
  function Holding(sh: Shared, pc: Pc): Move
    requires InSection(pc)
  {
    var free := sh.(mu := None);
    match pc
    case AddBody(p) =>
      if sh.b.expired then Goto(free, Retire(p, 0, Return))
      else Goto(free.(b := Install(sh.b, p), hadPath := true), AddNotify(p))
    case Arm(caller) => Goto(free.(b := ArmGrace(sh.b)), AfterGrace(caller))
  }

  predicate InSection(pc: Pc) {
    pc.AddBody? || pc.Arm?
  }

  // Actions taken outside the lock.
  function Free(sh: Shared, pc: Pc, outcome: Outcome): Move
    requires !NeedsLock(pc) && !InSection(pc)
  {
    var b := sh.b;
    match pc
    case AddNotify(p) => Goto(sh.(b := Notify(b)), AddSpawn(p))
    case AddSpawn(p) => Move(sh, Stopped, Some(Reading(p)))
    case Reading(p) => Goto(sh, Remove(p, Return))
    case RemoveNotify(p, k) => Goto(sh.(b := Notify(b)), Retire(p, 0, k))
    case Retire(p, n, k) =>
      if p < |sh.log| && n < |RETIREMENT| then
        Goto(sh.(log := sh.log[p := sh.log[p] + [RETIREMENT[n]]]),
             if n + 1 < |RETIREMENT| then Retire(p, n + 1, k) else Resume(k))
      else Goto(sh, pc)
    // closeOnce.Do: the first caller runs the body, later ones wait for it.
    case CloseEnter =>
      (match sh.once
       case Fresh => Goto(sh.(once := Running), CloseSignal)
       case Running => Goto(sh, CloseEnter)
       case Finished => Goto(sh, Stopped))
    case CloseSignal => Goto(sh.(b := b.(closed := true)), CloseTimer)
    case CloseNotify => Goto(sh.(b := Notify(b)), CloseSnapshot)
    case CloseLoop(rest) =>
      if rest == [] then Goto(sh.(once := Finished), Stopped)
      else Goto(sh, Remove(rest[0], CloseRest(rest[1..])))
    case WriteCheck => Goto(sh, if b.closed then Stopped else WriteSnapshot)
    case WriteEmptyCheck => Goto(sh, Stopped)
    case WriteTry(rest) =>
      if rest == [] then Goto(sh, WriteFinalCheck)
      else (match outcome
            case WriteOk => Goto(sh, Stopped)
            case Transient => Goto(sh, WriteTry(rest[1..]))
            case Permanent => Goto(sh, Remove(rest[0], WriteRest(rest[1..]))))
    case WriteFinalCheck => Goto(sh, if b.closed then Stopped else WriteFinalCount)
    case Stopped => Goto(sh, pc)
  }

  function Act(sh: Shared, t: ThreadId, pc: Pc, rotation: nat, outcome: Outcome): Move {
    if NeedsLock(pc) then
      if sh.mu.Some? then Goto(sh, pc) else Locked(sh, t, pc, rotation)
    else if InSection(pc) then Holding(sh, pc)
    else Free(sh, pc, outcome)
  }

  function Spawn(s: State, pc: Pc): State {
    s.(threads := s.threads + [pc])
  }

  function Take(s: State, t: ThreadId, m: Move): State
    requires t < |s.threads|
  {
    var s' := s.(sh := m.sh, threads := s.threads[t := m.pc]);
    if m.spawned.Some? then Spawn(s', m.spawned.value) else s'
  }

  // One step of the whole system. A step that is not enabled changes nothing.
  function Step(s: State, l: Label): State {
    var sh := s.sh;
    match l
    case CallAddConn => Spawn(s.(sh := sh.(log := sh.log + [[]])), AddCheck(|sh.log|))
    case CallWriteTo => Spawn(s, WriteCheck)
    case CallClose => Spawn(s, CloseEnter)
    case Fire(id) =>
      if id in sh.b.armed then
        Spawn(s.(sh := sh.(b := sh.b.(armed := sh.b.armed - {id}))), TimerBody(id))
      else s
    case Run(t, rotation, outcome) =>
      if t < |s.threads| then Take(s, t, Act(sh, t, s.threads[t], rotation, outcome)) else s
    case Consume =>
      if s.consumer.Counting? then
        if sh.mu.Some? then s else s.(consumer := Blocked(|sh.b.paths|))
      else if sh.b.notified then
        s.(consumer := Counting, sh := sh.(b := sh.b.(notified := false)))
      else s
    case ConsumeTimeout => s.(consumer := Counting)
  }

  // The state after a schedule: every finite run of the system is some Exec(ls).
  function Exec(ls: seq<Label>): State {
    if ls == [] then START else Step(Exec(ls[..|ls| - 1]), ls[|ls| - 1])
  }
}
