// backendGate: any number of threads acquire and release backend streams, at the
// granularity of single atomic loads, compare-and-swaps and adds.
module BackendGate {
  type SessionId = nat
  type ProcId = nat

  datatype Limits = Limits(maxGlobal: nat, maxPerSession: nat)

  datatype Rejection = PerSession | Global

  // A process is one Acquire call and the lease that comes of it.
  datatype Pc =
    | SessionLoad(s: SessionId)
    | SessionCas(s: SessionId, current: int)
    | GlobalLoad(s: SessionId)
    | GlobalCas(s: SessionId, current: int)
    | Opening(s: SessionId)          // both slots taken, gauge not yet raised
    | Live(s: SessionId)             // the caller holds the lease
    | ReleaseSession(s: SessionId)   // inside the lease's once
    | ReleaseGlobal(s: SessionId)
    | ReleaseGauge(s: SessionId)
    | GiveBack(s: SessionId)         // session slot taken, global refused
    | CountRejection(why: Rejection)
    | Rejected(why: Rejection)
    | Released

  datatype Shared = Shared(global: int, sessions: seq<int>, gauge: int, rejections: nat)

  datatype State = State(sh: Shared, procs: seq<Pc>)

  datatype Label =
    | NewSession
    | CallAcquire(s: SessionId)
    | Run(t: ProcId)
    | CallRelease(t: ProcId)

  const START := State(Shared(0, [], 0, 0), [])

  function AddTo(sessions: seq<int>, s: SessionId, d: int): seq<int>
    requires s < |sessions|
  {
    sessions[s := sessions[s] + d]
  }

  function Act(sh: Shared, pc: Pc, m: Limits): (Shared, Pc)
    requires InRange(sh, pc)
  {
    match pc
    case SessionLoad(s) =>
      (sh, if sh.sessions[s] >= m.maxPerSession then CountRejection(PerSession) else SessionCas(s, sh.sessions[s]))
    case SessionCas(s, current) =>
      if sh.sessions[s] == current then (sh.(sessions := AddTo(sh.sessions, s, 1)), GlobalLoad(s))
      else (sh, SessionLoad(s))
    case GlobalLoad(s) =>
      (sh, if sh.global >= m.maxGlobal then GiveBack(s) else GlobalCas(s, sh.global))
    case GlobalCas(s, current) =>
      if sh.global == current then (sh.(global := sh.global + 1), Opening(s)) else (sh, GlobalLoad(s))
    case Opening(s) => (sh.(gauge := sh.gauge + 1), Live(s))
    case Live(_) => (sh, pc)
    case ReleaseSession(s) => (sh.(sessions := AddTo(sh.sessions, s, -1)), ReleaseGlobal(s))
    case ReleaseGlobal(s) => (sh.(global := sh.global - 1), ReleaseGauge(s))
    case ReleaseGauge(_) => (sh.(gauge := sh.gauge - 1), Released)
    case GiveBack(s) => (sh.(sessions := AddTo(sh.sessions, s, -1)), CountRejection(Global))
    case CountRejection(why) => (sh.(rejections := sh.rejections + 1), Rejected(why))
    case Rejected(_) => (sh, pc)
    case Released => (sh, pc)
  }

  predicate HasSession(pc: Pc) {
    !pc.CountRejection? && !pc.Rejected? && !pc.Released?
  }

  predicate InRange(sh: Shared, pc: Pc) {
    HasSession(pc) ==> pc.s < |sh.sessions|
  }

  // One step of the whole system. The lease's once lets only the first release of
  // a live lease in. A step that is not enabled changes nothing.
  function Step(s: State, l: Label, m: Limits): State
    requires WellFormed(s)
  {
    match l
    case NewSession => s.(sh := s.sh.(sessions := s.sh.sessions + [0]))
    case CallAcquire(id) => if id < |s.sh.sessions| then s.(procs := s.procs + [SessionLoad(id)]) else s
    case Run(t) =>
      if t < |s.procs| then
        var (sh', pc') := Act(s.sh, s.procs[t], m);
        State(sh', s.procs[t := pc'])
      else s
    case CallRelease(t) =>
      if t < |s.procs| && s.procs[t].Live? then s.(procs := s.procs[t := ReleaseSession(s.procs[t].s)]) else s
  }

  predicate WellFormed(s: State) {
    forall t :: 0 <= t < |s.procs| ==> InRange(s.sh, s.procs[t])
  }

  function Exec(ls: seq<Label>, m: Limits): (s: State)
    ensures WellFormed(s)
  {
    if ls == [] then START else Step(Exec(ls[..|ls| - 1], m), ls[|ls| - 1], m)
  }

  // ---- The plain sets behind the counters ---------------------------------

  datatype Slot = SessionSlot(s: SessionId) | SessionBelow(n: nat) | GlobalSlot | GaugeSlot | LiveLease | Refused

  predicate HoldsSession(pc: Pc) {
    pc.GlobalLoad? || pc.GlobalCas? || pc.Opening? || pc.Live? || pc.ReleaseSession? || pc.GiveBack?
  }

  predicate Holds(pc: Pc, slot: Slot) {
    match slot
    case SessionSlot(s) => HoldsSession(pc) && pc.s == s
    case SessionBelow(n) => HoldsSession(pc) && pc.s < n
    case GlobalSlot => pc.Opening? || pc.Live? || pc.ReleaseSession? || pc.ReleaseGlobal?
    case GaugeSlot => pc.Live? || pc.ReleaseSession? || pc.ReleaseGlobal? || pc.ReleaseGauge?
    case LiveLease => pc.Live?
    case Refused => pc.Rejected?
  }

  function One(pc: Pc, slot: Slot): nat {
    if Holds(pc, slot) then 1 else 0
  }

  // How many processes hold the slot.
  function Holders(procs: seq<Pc>, slot: Slot): nat {
    if procs == [] then 0 else Holders(procs[..|procs| - 1], slot) + One(procs[|procs| - 1], slot)
  }

  lemma HoldersAppend(procs: seq<Pc>, pc: Pc, slot: Slot)
    ensures Holders(procs + [pc], slot) == Holders(procs, slot) + One(pc, slot)
  {
    assert (procs + [pc])[..|procs|] == procs;
  }

  lemma {:induction false} HoldersUpdate(procs: seq<Pc>, t: ProcId, pc: Pc, slot: Slot)
    requires t < |procs|
    ensures Holders(procs[t := pc], slot) == Holders(procs, slot) - One(procs[t], slot) + One(pc, slot)
  {
    var last := |procs| - 1;
    if t == last {
      assert procs[t := pc][..last] == procs[..last];
    } else {
      HoldersUpdate(procs[..last], t, pc, slot);
      assert procs[t := pc][..last] == procs[..last][t := pc];
    }
  }

  // ---- The invariant ------------------------------------------------------

  // A compare-and-swap is only attempted from a value below the limit.
  predicate BelowLimit(pc: Pc, m: Limits) {
    && (pc.SessionCas? ==> pc.current < m.maxPerSession)
    && (pc.GlobalCas? ==> pc.current < m.maxGlobal)
  }

  ghost predicate Counted(s: State) {
    && (forall id :: 0 <= id < |s.sh.sessions| ==> s.sh.sessions[id] == Holders(s.procs, SessionSlot(id)))
    && s.sh.global == Holders(s.procs, GlobalSlot)
    && s.sh.gauge == Holders(s.procs, GaugeSlot)
    && s.sh.rejections == Holders(s.procs, Refused)
  }

  ghost predicate Capped(sh: Shared, m: Limits) {
    && sh.global <= m.maxGlobal
    && forall id :: 0 <= id < |sh.sessions| ==> sh.sessions[id] <= m.maxPerSession
  }

  ghost predicate Inv(s: State, m: Limits) {
    && WellFormed(s) && Counted(s) && Capped(s.sh, m)
    && forall t :: 0 <= t < |s.procs| ==> BelowLimit(s.procs[t], m)
  }

  // What one atomic operation does to each counter is what it does to the holders.
  ghost predicate SessionsBalanced(sh: Shared, pc: Pc, sh': Shared, pc': Pc) {
    && |sh'.sessions| == |sh.sessions|
    && forall id :: 0 <= id < |sh.sessions| ==>
         sh'.sessions[id] == sh.sessions[id] - One(pc, SessionSlot(id)) + One(pc', SessionSlot(id))
  }

  predicate TotalsBalanced(sh: Shared, pc: Pc, sh': Shared, pc': Pc) {
    && sh'.global == sh.global - One(pc, GlobalSlot) + One(pc', GlobalSlot)
    && sh'.gauge == sh.gauge - One(pc, GaugeSlot) + One(pc', GaugeSlot)
    && sh'.rejections == sh.rejections - One(pc, Refused) + One(pc', Refused)
  }

  ghost predicate Balanced(sh: Shared, pc: Pc, sh': Shared, pc': Pc) {
    SessionsBalanced(sh, pc, sh', pc') && TotalsBalanced(sh, pc, sh', pc')
  }

  lemma ActSession(sh: Shared, pc: Pc, m: Limits, id: SessionId)
    requires InRange(sh, pc) && id < |sh.sessions|
    ensures var (sh', pc') := Act(sh, pc, m);
            && |sh'.sessions| == |sh.sessions|
            && sh'.sessions[id] == sh.sessions[id] - One(pc, SessionSlot(id)) + One(pc', SessionSlot(id))
  {
  }

  lemma ActBalanced(sh: Shared, pc: Pc, m: Limits)
    requires InRange(sh, pc)
    ensures Balanced(sh, pc, Act(sh, pc, m).0, Act(sh, pc, m).1)
  {
    var (sh', pc') := Act(sh, pc, m);
    assert TotalsBalanced(sh, pc, sh', pc');
    forall id | 0 <= id < |sh.sessions|
      ensures sh'.sessions[id] == sh.sessions[id] - One(pc, SessionSlot(id)) + One(pc', SessionSlot(id))
    {
      ActSession(sh, pc, m, id);
    }
  }

  lemma ActCapped(sh: Shared, pc: Pc, m: Limits)
    requires InRange(sh, pc) && BelowLimit(pc, m) && Capped(sh, m)
    ensures var (sh', pc') := Act(sh, pc, m); InRange(sh', pc') && BelowLimit(pc', m) && Capped(sh', m)
  {
  }

  lemma MoveCounted(s: State, t: ProcId, sh': Shared, pc': Pc)
    requires t < |s.procs| && Counted(s) && Balanced(s.sh, s.procs[t], sh', pc')
    ensures Counted(State(sh', s.procs[t := pc']))
  {
    forall id | 0 <= id < |sh'.sessions|
      ensures sh'.sessions[id] == Holders(s.procs[t := pc'], SessionSlot(id))
    {
      HoldersUpdate(s.procs, t, pc', SessionSlot(id));
    }
    HoldersUpdate(s.procs, t, pc', GlobalSlot);
    HoldersUpdate(s.procs, t, pc', GaugeSlot);
    HoldersUpdate(s.procs, t, pc', Refused);
  }

  lemma RunInv(s: State, t: ProcId, m: Limits)
    requires Inv(s, m) && t < |s.procs|
    ensures Inv(Step(s, Run(t), m), m)
  {
    var (sh', pc') := Act(s.sh, s.procs[t], m);
    ActBalanced(s.sh, s.procs[t], m);
    ActCapped(s.sh, s.procs[t], m);
    MoveCounted(s, t, sh', pc');
  }

  lemma {:induction false} NoHolders(procs: seq<Pc>, id: SessionId)
    requires forall t :: 0 <= t < |procs| && HasSession(procs[t]) ==> procs[t].s < id
    ensures Holders(procs, SessionSlot(id)) == 0
  {
    if procs != [] {
      NoHolders(procs[..|procs| - 1], id);
    }
  }

  lemma NewSessionInv(s: State, m: Limits)
    requires Inv(s, m)
    ensures Inv(Step(s, NewSession, m), m)
  {
    NoHolders(s.procs, |s.sh.sessions|);
  }

  lemma CallInv(s: State, l: Label, m: Limits)
    requires Inv(s, m) && (l.CallAcquire? || l.CallRelease?)
    ensures Inv(Step(s, l, m), m)
  {
    if l.CallRelease? {
      if l.t < |s.procs| && s.procs[l.t].Live? {
        MoveCounted(s, l.t, s.sh, ReleaseSession(s.procs[l.t].s));
      }
    } else {
      forall slot: Slot
        ensures Holders(s.procs + [SessionLoad(l.s)], slot) == Holders(s.procs, slot)
      {
        HoldersAppend(s.procs, SessionLoad(l.s), slot);
      }
    }
  }

  lemma {:induction false} ExecInv(ls: seq<Label>, m: Limits)
    ensures Inv(Exec(ls, m), m)
  {
    if ls != [] {
      var s, l := Exec(ls[..|ls| - 1], m), ls[|ls| - 1];
      ExecInv(ls[..|ls| - 1], m);
      match l
      case NewSession => NewSessionInv(s, m);
      case Run(t) => if t < |s.procs| { RunInv(s, t, m); }
      case _ => CallInv(s, l, m);
    }
  }

  // ---- Theorems -----------------------------------------------------------

  // In every interleaving each counter is exactly the number of slots held, so it
  // is never negative, and never over its limit.
  lemma CountersAreSlotsHeld(ls: seq<Label>, m: Limits)
    ensures var s := Exec(ls, m);
            && 0 <= s.sh.global == Holders(s.procs, GlobalSlot) <= m.maxGlobal
            && 0 <= s.sh.gauge == Holders(s.procs, GaugeSlot)
            && s.sh.rejections == Holders(s.procs, Refused)
            && forall id :: 0 <= id < |s.sh.sessions| ==>
                 0 <= s.sh.sessions[id] == Holders(s.procs, SessionSlot(id)) <= m.maxPerSession
  {
    ExecInv(ls, m);
  }

  function Sum(sessions: seq<int>): int {
    if sessions == [] then 0 else Sum(sessions[..|sessions| - 1]) + sessions[|sessions| - 1]
  }

  lemma {:induction false} HoldersSplit(procs: seq<Pc>, n: nat)
    ensures Holders(procs, SessionBelow(n + 1)) == Holders(procs, SessionBelow(n)) + Holders(procs, SessionSlot(n))
  {
    if procs != [] {
      HoldersSplit(procs[..|procs| - 1], n);
    }
  }

  lemma {:induction false} NobodyBelowZero(procs: seq<Pc>)
    ensures Holders(procs, SessionBelow(0)) == 0
  {
    if procs != [] {
      NobodyBelowZero(procs[..|procs| - 1]);
    }
  }

  lemma {:induction false} SumIsHolders(procs: seq<Pc>, sessions: seq<int>)
    requires forall id :: 0 <= id < |sessions| ==> sessions[id] == Holders(procs, SessionSlot(id))
    ensures Sum(sessions) == Holders(procs, SessionBelow(|sessions|))
  {
    if sessions == [] {
      NobodyBelowZero(procs);
    } else {
      SumIsHolders(procs, sessions[..|sessions| - 1]);
      HoldersSplit(procs, |sessions| - 1);
    }
  }

  predicate Settled(pc: Pc) {
    pc.Live? || pc.Rejected? || pc.Released?
  }

  lemma {:induction false} SettledHolders(procs: seq<Pc>, n: nat)
    requires forall t :: 0 <= t < |procs| ==> Settled(procs[t]) && (procs[t].Live? ==> procs[t].s < n)
    ensures Holders(procs, SessionBelow(n)) == Holders(procs, LiveLease)
    ensures Holders(procs, GlobalSlot) == Holders(procs, LiveLease)
    ensures Holders(procs, GaugeSlot) == Holders(procs, LiveLease)
  {
    if procs != [] {
      SettledHolders(procs[..|procs| - 1], n);
    }
  }

  // With nobody in the middle of a call, the global counter, the sum of the
  // session counters and the active-stream gauge are all the number of leases held.
  lemma SettledCountersAgree(ls: seq<Label>, m: Limits)
    requires forall t :: 0 <= t < |Exec(ls, m).procs| ==> Settled(Exec(ls, m).procs[t])
    ensures var s := Exec(ls, m);
            s.sh.global == Sum(s.sh.sessions) == s.sh.gauge == Holders(s.procs, LiveLease)
  {
    ExecInv(ls, m);
    var s := Exec(ls, m);
    SumIsHolders(s.procs, s.sh.sessions);
    SettledHolders(s.procs, |s.sh.sessions|);
  }

  // ---- Who is rejected ----------------------------------------------------

  // The limit that process t finds met when it looks in this step, if any.
  ghost function Meets(s: State, l: Label, m: Limits, t: ProcId): (met: set<Rejection>) {
    if l == Run(t) && t < |s.procs| then
      match s.procs[t]
      case SessionLoad(id) => if Holders(s.procs, SessionSlot(id)) == m.maxPerSession then {PerSession} else {}
      case GlobalLoad(_) => if Holders(s.procs, GlobalSlot) == m.maxGlobal then {Global} else {}
      case _ => {}
    else {}
  }

  // The limits that process t has found met so far.
  ghost function Met(ls: seq<Label>, m: Limits, t: ProcId): set<Rejection> {
    if ls == [] then {} else Met(ls[..|ls| - 1], m, t) + Meets(Exec(ls[..|ls| - 1], m), ls[|ls| - 1], m, t)
  }

  // Why a process has been, or is being, rejected.
  function Reason(pc: Pc): set<Rejection> {
    match pc
    case GiveBack(_) => {Global}
    case CountRejection(why) => {why}
    case Rejected(why) => {why}
    case _ => {}
  }

  lemma ReasonStep(s: State, l: Label, m: Limits, t: ProcId)
    requires Inv(s, m)
    ensures |s.procs| <= |Step(s, l, m).procs|
    ensures t < |s.procs| ==> Reason(Step(s, l, m).procs[t]) == Reason(s.procs[t]) + Meets(s, l, m, t)
    ensures |s.procs| <= t < |Step(s, l, m).procs| ==> Reason(Step(s, l, m).procs[t]) == {}
    ensures t >= |s.procs| ==> Meets(s, l, m, t) == {}
  {
  }

  // In every interleaving a stream is rejected exactly if its call found a limit met
  // when it looked, and the reason names that limit.
  lemma {:induction false} RejectedExactlyAtALimit(ls: seq<Label>, m: Limits, t: ProcId)
    ensures Met(ls, m, t) == if t < |Exec(ls, m).procs| then Reason(Exec(ls, m).procs[t]) else {}
  {
    if ls != [] {
      RejectedExactlyAtALimit(ls[..|ls| - 1], m, t);
      ExecInv(ls[..|ls| - 1], m);
      ReasonStep(Exec(ls[..|ls| - 1], m), ls[|ls| - 1], m, t);
    }
  }

  // ---- Who gets in, and out -----------------------------------------------

  lemma Next(ls: seq<Label>, l: Label, m: Limits) returns (next: seq<Label>)
    ensures next == ls + [l] && Exec(next, m) == Step(Exec(ls, m), l, m)
  {
    next := ls + [l];
    assert next[..|ls|] == ls;
  }

  // One step of process t.
  lemma Goes(ls: seq<Label>, t: ProcId, sh: Shared, pc: Pc, m: Limits) returns (next: seq<Label>)
    requires t < |Exec(ls, m).procs| && Act(Exec(ls, m).sh, Exec(ls, m).procs[t], m) == (sh, pc)
    ensures next == ls + [Run(t)] && Exec(next, m) == State(sh, Exec(ls, m).procs[t := pc])
  {
    next := Next(ls, Run(t), m);
  }

  // An undisturbed call that finds room in its session takes the session's slot,
  lemma TakesSessionSlot(ls: seq<Label>, id: SessionId, m: Limits) returns (next: seq<Label>)
    requires id < |Exec(ls, m).sh.sessions| && Exec(ls, m).sh.sessions[id] < m.maxPerSession
    ensures var s, t := Exec(ls, m), |Exec(ls, m).procs|;
            && next == ls + [CallAcquire(id), Run(t), Run(t)]
            && Exec(next, m) ==
               State(s.sh.(sessions := AddTo(s.sh.sessions, id, 1)), s.procs + [GlobalLoad(id)])
  {
    var s, t := Exec(ls, m), |Exec(ls, m).procs|;
    next := Next(ls, CallAcquire(id), m);
    next := Goes(next, t, s.sh, SessionCas(id, s.sh.sessions[id]), m);
    next := Goes(next, t, s.sh.(sessions := AddTo(s.sh.sessions, id, 1)), GlobalLoad(id), m);
    assert Exec(next, m).procs == s.procs + [GlobalLoad(id)];
  }

  // and one that finds room in all takes the global one.
  lemma TakesGlobalSlot(ls: seq<Label>, t: ProcId, id: SessionId, m: Limits) returns (next: seq<Label>)
    requires t < |Exec(ls, m).procs| && Exec(ls, m).procs[t] == GlobalLoad(id) && Exec(ls, m).sh.global < m.maxGlobal
    ensures next == ls + [Run(t), Run(t), Run(t)] && |Exec(next, m).procs| == |Exec(ls, m).procs|
    ensures Exec(next, m).procs[t] == Live(id)
  {
    var sh := Exec(ls, m).sh;
    next := Goes(ls, t, sh, GlobalCas(id, sh.global), m);
    next := Goes(next, t, sh.(global := sh.global + 1), Opening(id), m);
    next := Goes(next, t, sh.(global := sh.global + 1, gauge := sh.gauge + 1), Live(id), m);
  }

  // Whatever has happened before, an undisturbed call that finds room under both
  // limits gets its lease in five steps of its own.
  lemma RoomMeansALease(ls: seq<Label>, id: SessionId, m: Limits)
    requires id < |Exec(ls, m).sh.sessions|
    requires Holders(Exec(ls, m).procs, SessionSlot(id)) < m.maxPerSession
    requires Holders(Exec(ls, m).procs, GlobalSlot) < m.maxGlobal
    ensures var t := |Exec(ls, m).procs|;
            var s := Exec(ls + [CallAcquire(id), Run(t), Run(t), Run(t), Run(t), Run(t)], m);
            t < |s.procs| && s.procs[t] == Live(id)
  {
    CountersAreSlotsHeld(ls, m);
    var t := |Exec(ls, m).procs|;
    var next := TakesSessionSlot(ls, id, m);
    next := TakesGlobalSlot(next, t, id, m);
    assert next == ls + [CallAcquire(id), Run(t), Run(t), Run(t), Run(t), Run(t)];
  }

  // A new session starts without streams, so with room in all its first stream gets in.
  lemma FreshSessionAdmits(ls: seq<Label>, m: Limits)
    requires m.maxPerSession >= 1 && Holders(Exec(ls, m).procs, GlobalSlot) < m.maxGlobal
    ensures var id, t := |Exec(ls, m).sh.sessions|, |Exec(ls, m).procs|;
            var s := Exec(ls + [NewSession] + [CallAcquire(id), Run(t), Run(t), Run(t), Run(t), Run(t)], m);
            t < |s.procs| && s.procs[t] == Live(id)
  {
    var next := Next(ls, NewSession, m);
    CountersAreSlotsHeld(next, m);
    RoomMeansALease(next, |Exec(ls, m).sh.sessions|, m);
  }

  // A lease that is released is gone after three steps, however others interfere:
  // each of its own steps takes it nearer.
  function StepsToRelease(pc: Pc): nat {
    match pc
    case Live(_) => 4
    case ReleaseSession(_) => 3
    case ReleaseGlobal(_) => 2
    case ReleaseGauge(_) => 1
    case _ => 0
  }

  lemma ReleaseEnds(ls: seq<Label>, m: Limits, t: ProcId)
    requires t < |Exec(ls, m).procs| && StepsToRelease(Exec(ls, m).procs[t]) > 0
    ensures var s := Exec(ls, m);
            var s' := Step(s, if s.procs[t].Live? then CallRelease(t) else Run(t), m);
            && t < |s'.procs| && StepsToRelease(s'.procs[t]) == StepsToRelease(s.procs[t]) - 1
            && (StepsToRelease(s'.procs[t]) == 0 ==> s'.procs[t] == Released)
  {
  }
}
