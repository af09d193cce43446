// vlessBondManager: concurrent add calls, group runs and path losses.
//
// A step is one section under the manager's lock, the acknowledgement write,
// startOnce, or one stage of a group's run. addWithCleanup holds the group's lock
// over three steps, its limit check, AddConn and Count, because paths can be lost
// and the bond can close in between.
module BondManager {
  import opened Prelude
  import opened BondHello
  import opened BondGroup

  type GroupId = nat
  type ThreadId = nat

  // The server's own KCP settings.
  datatype Profile = Profile(mtu: int, fecData: int, fecParity: int, window: int)

  datatype Phase = Unstarted | Starting | Serving(session: nat) | Stopping | PcClosed | Finished

  // mu is the add call that holds the group's lock. admitted and runs are history:
  // how many add calls passed the limit check, and how often the run was started.
  datatype Rec = Rec(group: Group, mu: Option<ThreadId>, phase: Phase, pcOpen: bool, admitted: nat, runs: nat)

  datatype Shared = Shared(groups: map<string, GroupId>, recs: seq<Rec>, sessions: nat)

  datatype Pc =
    | CheckGroup(h: Hello)
    | SendAck(h: Hello)
    | Lookup(h: Hello)
    | Admitting(h: Hello, g: GroupId)
    // under the group's lock: about to call AddConn, about to call Count
    | Adding(g: GroupId)
    | CountingPaths(g: GroupId)
    | StartOnce(g: GroupId)
    | Returned(ok: bool)

  datatype State = State(sh: Shared, threads: seq<Pc>)

  datatype Label =
    | CallAdd(h: Hello)
    // acked: the acknowledgement went out; accepted: the bond took the connection
    | Run(t: ThreadId, acked: bool, accepted: bool)
    | PathLoss(g: GroupId)
    | PcCloses(g: GroupId)
    // ready: the KCP session came up
    | RunGroup(g: GroupId, ready: bool)

  const START := State(Shared(map[], [], 0), [])

  // ValidateBondHelloTuning
  predicate TuningMatches(h: Hello, p: Profile) {
    ValidHello(h) && (h.version == 1 || (h.mtu == p.mtu && h.fecData == p.fecData && h.fecParity == p.fecParity))
  }

  function Put(sh: Shared, g: GroupId, r: Rec): Shared
    requires g < |sh.recs|
  {
    sh.(recs := sh.recs[g := r])
  }

  function Mismatch(sh: Shared, h: Hello): bool {
    h.bondId in sh.groups && sh.groups[h.bondId] < |sh.recs| && sh.recs[sh.groups[h.bondId]].group.hello != h
  }

  function LookupStep(sh: Shared, h: Hello): (Shared, Pc) {
    if h.bondId !in sh.groups then
      var g := |sh.recs|;
      (sh.(groups := sh.groups[h.bondId := g], recs := sh.recs + [Rec(NewGroup(h), None, Unstarted, true, 0, 0)]),
       Admitting(h, g))
    else if Mismatch(sh, h) then (sh, Returned(false))
    else (sh, Admitting(h, sh.groups[h.bondId]))
  }

  // addWithCleanup takes the group's lock, unless another call holds it, and checks
  // the limit.
  function AdmitStep(sh: Shared, t: ThreadId, h: Hello, g: GroupId): (Shared, Pc) {
    if g >= |sh.recs| then (sh, Returned(false))
    else if sh.recs[g].mu.Some? then (sh, Admitting(h, g))
    else if Full(sh.recs[g].group) then (sh, Returned(false))
    else (Put(sh, g, sh.recs[g].(mu := Some(t), admitted := sh.recs[g].admitted + 1)), Adding(g))
  }

  function JoinStep(sh: Shared, g: GroupId, accepted: bool): (Shared, Pc) {
    if g >= |sh.recs| then (sh, Adding(g))
    else
      var r := sh.recs[g];
      (Put(sh, g, r.(group := Join(r.group, accepted && r.pcOpen))), CountingPaths(g))
  }

  function CountStep(sh: Shared, g: GroupId, base: int): (Shared, Pc) {
    if g >= |sh.recs| then (sh, CountingPaths(g))
    else
      var r := sh.recs[g];
      (Put(sh, g, r.(group := CountPaths(r.group, base), mu := None)), StartOnce(g))
  }

  function StartStep(sh: Shared, g: GroupId): (Shared, Pc) {
    if g < |sh.recs| && sh.recs[g].phase == Unstarted then
      (Put(sh, g, sh.recs[g].(phase := Starting, runs := sh.recs[g].runs + 1)), Returned(true))
    else (sh, Returned(true))
  }

  function Act(sh: Shared, pc: Pc, l: Label, p: Profile): (Shared, Pc)
    requires l.Run?
  {
    match pc
    case CheckGroup(h) =>
      (sh, if Mismatch(sh, h) then Returned(false) else if h.version == 2 then SendAck(h) else Lookup(h))
    case SendAck(h) => (sh, if l.acked then Lookup(h) else Returned(false))
    case Lookup(h) => LookupStep(sh, h)
    case Admitting(h, g) => AdmitStep(sh, l.t, h, g)
    case Adding(g) => JoinStep(sh, g, l.accepted)
    case CountingPaths(g) => CountStep(sh, g, p.window)
    case StartOnce(g) => StartStep(sh, g)
    case Returned(_) => (sh, pc)
  }

  // group.run stage by stage; session is a fresh KCP session. Installing and clearing
  // its window setter wait for the group's lock.
  function RunRec(r: Rec, session: nat, ready: bool, base: int): Rec {
    if r.mu.Some? && (r.phase == Starting || r.phase.Serving?) then r
    else match r.phase
    case Unstarted => r
    case Starting =>
      if ready then r.(phase := Serving(session), group := InstallSetter(r.group, session, base))
      else r.(phase := Stopping)
    case Serving(id) => r.(phase := Stopping, group := ClearSetter(r.group, id))
    case Stopping => r.(phase := PcClosed, pcOpen := false)
    case PcClosed => r.(phase := Finished)
    case Finished => r
  }

  // The last stage is the onDone callback, which takes the group out of the map
  // if it is the one registered there.
  function RunStep(sh: Shared, g: GroupId, ready: bool, base: int): Shared {
    if g >= |sh.recs| then sh
    else
      var r := sh.recs[g];
      var sh' := Put(sh, g, RunRec(r, sh.sessions, ready, base)).(sessions := sh.sessions + 1);
      var id := r.group.hello.bondId;
      if r.phase == PcClosed && id in sh.groups && sh.groups[id] == g then sh'.(groups := sh.groups - {id}) else sh'
  }

  // One step of the whole system. A step that is not enabled changes nothing.
  function Step(s: State, l: Label, p: Profile): State {
    var sh := s.sh;
    match l
    case CallAdd(h) => s.(threads := s.threads + [if TuningMatches(h, p) then CheckGroup(h) else Returned(false)])
    case Run(t, _, _) =>
      if t < |s.threads| then
        var (sh', pc') := Act(sh, s.threads[t], l, p);
        State(sh', s.threads[t := pc'])
      else s
    case PathLoss(g) =>
      if g < |sh.recs| then s.(sh := Put(sh, g, sh.recs[g].(group := Lose(sh.recs[g].group, 1)))) else s
    case PcCloses(g) =>
      if g < |sh.recs| then s.(sh := Put(sh, g, sh.recs[g].(pcOpen := false))) else s
    case RunGroup(g, ready) => s.(sh := RunStep(sh, g, ready, p.window))
  }

  // The state after a schedule: every finite run of the system is some Exec(ls, p).
  function Exec(ls: seq<Label>, p: Profile): State {
    if ls == [] then START else Step(Exec(ls[..|ls| - 1], p), ls[|ls| - 1], p)
  }

  // ---- The group records --------------------------------------------------

  ghost predicate RecInv(r: Rec, base: int) {
    && GroupInv(r.group, base)
    && ValidHello(r.group.hello)
    && (r.phase == Unstarted <==> r.runs == 0) && r.runs <= 1
    && (r.phase != Unstarted ==> r.admitted > 0)
    && (r.admitted == 0 ==> r.group.count == 0 && r.mu == None)
    && (r.mu == None ==> r.group.count <= r.group.maxPaths)
    && (r.phase.Serving? <==> r.group.window.Some?)
    && (r.phase.Serving? ==> r.group.window.value.id == r.phase.session)
    && (r.phase in {PcClosed, Finished} ==> !r.pcOpen)
  }

  // The map holds exactly the groups that have not finished, each under its id.
  ghost predicate MapInv(sh: Shared) {
    && (forall id :: id in sh.groups ==>
          var g := sh.groups[id];
          g < |sh.recs| && sh.recs[g].group.hello.bondId == id && sh.recs[g].phase != Finished)
    && (forall g :: 0 <= g < |sh.recs| && sh.recs[g].phase != Finished ==>
          var id := sh.recs[g].group.hello.bondId;
          id in sh.groups && sh.groups[id] == g)
  }

  ghost predicate SharedInv(sh: Shared, base: int) {
    MapInv(sh) && forall g :: 0 <= g < |sh.recs| ==> RecInv(sh.recs[g], base)
  }

  predicate InSection(pc: Pc) {
    pc.Adding? || pc.CountingPaths?
  }

  // What a thread inside add knows.
  ghost predicate ThreadInv(sh: Shared, t: ThreadId, pc: Pc) {
    && (pc.CheckGroup? || pc.SendAck? || pc.Lookup? ==> ValidHello(pc.h))
    && (pc.Admitting? ==> pc.g < |sh.recs| && sh.recs[pc.g].group.hello == pc.h)
    && (InSection(pc) ==> pc.g < |sh.recs| && sh.recs[pc.g].mu == Some(t))
    && (pc.Adding? ==> !Full(sh.recs[pc.g].group) && sh.recs[pc.g].group.count <= sh.recs[pc.g].group.maxPaths)
    && (InSection(pc) || pc.StartOnce? ==> pc.g < |sh.recs| && sh.recs[pc.g].admitted > 0)
  }

  // The thread that is certain to start group g: past admission, or the next to be
  // admitted into a group that has admitted nobody.
  predicate WillStart(sh: Shared, pc: Pc, g: GroupId) {
    || pc == StartOnce(g) || pc == Adding(g) || pc == CountingPaths(g)
    || (pc.Admitting? && pc.g == g && g < |sh.recs| && sh.recs[g].admitted == 0)
  }

  ghost predicate Starter(s: State, g: GroupId) {
    exists t :: 0 <= t < |s.threads| && WillStart(s.sh, s.threads[t], g)
  }

  ghost predicate StartInv(s: State) {
    forall g :: 0 <= g < |s.sh.recs| && s.sh.recs[g].phase == Unstarted ==> Starter(s, g)
  }

  // A held lock is held by an add call inside its section.
  ghost predicate HolderInv(s: State) {
    forall g :: 0 <= g < |s.sh.recs| && s.sh.recs[g].mu.Some? ==> Holder(s, s.sh.recs[g].mu.value, g)
  }

  predicate Holder(s: State, t: ThreadId, g: GroupId) {
    t < |s.threads| && (s.threads[t] == Adding(g) || s.threads[t] == CountingPaths(g))
  }

  ghost predicate Inv(s: State, base: int) {
    && SharedInv(s.sh, base)
    && HolderInv(s)
    && (forall t :: 0 <= t < |s.threads| ==> ThreadInv(s.sh, t, s.threads[t]))
    && StartInv(s)
  }

  // Records only move forward: hello is fixed, admissions and phases never undone.
  ghost predicate RecGrows(r: Rec, r': Rec) {
    && Grows(r.group, r'.group) && r.admitted <= r'.admitted && r.runs <= r'.runs
    && (r.phase == Finished ==> r'.phase == Finished)
  }

  ghost predicate Extends(sh: Shared, sh': Shared) {
    |sh.recs| <= |sh'.recs| && forall g :: 0 <= g < |sh.recs| ==> RecGrows(sh.recs[g], sh'.recs[g])
  }

  // Changing one record without touching its id or whether it has finished.
  lemma PutKeeps(sh: Shared, g: GroupId, r: Rec, base: int)
    requires SharedInv(sh, base) && g < |sh.recs|
    requires RecInv(r, base) && RecGrows(sh.recs[g], r) && (r.phase == Finished <==> sh.recs[g].phase == Finished)
    ensures SharedInv(Put(sh, g, r), base) && Extends(sh, Put(sh, g, r))
  {
  }

  // A new group under a bond id that the map does not have.
  lemma NewGroupKeeps(sh: Shared, h: Hello, base: int)
    requires SharedInv(sh, base) && ValidHello(h) && h.bondId !in sh.groups
    ensures SharedInv(LookupStep(sh, h).0, base) && Extends(sh, LookupStep(sh, h).0)
  {
    var recs := LookupStep(sh, h).0.recs;
    assert forall g :: 0 <= g < |sh.recs| ==> recs[g] == sh.recs[g];
    assert RecInv(recs[|sh.recs|], base);
  }

  lemma LookupKeeps(sh: Shared, t: ThreadId, h: Hello, base: int)
    requires SharedInv(sh, base) && ValidHello(h)
    ensures var (sh', pc') := LookupStep(sh, h);
            SharedInv(sh', base) && Extends(sh, sh') && ThreadInv(sh', t, pc')
    ensures var (sh', pc') := LookupStep(sh, h);
            forall g :: |sh.recs| <= g < |sh'.recs| ==> WillStart(sh', pc', g)
  {
    if h.bondId !in sh.groups {
      NewGroupKeeps(sh, h, base);
    }
  }

  lemma RunRecKeeps(r: Rec, session: nat, ready: bool, base: int)
    requires RecInv(r, base)
    ensures RecInv(RunRec(r, session, ready, base), base) && RecGrows(r, RunRec(r, session, ready, base))
  {
    SettersKeep(r.group, session, base);
    if r.phase.Serving? {
      SettersKeep(r.group, r.phase.session, base);
    }
  }

  lemma FinishKeeps(sh: Shared, g: GroupId, r: Rec, base: int)
    requires SharedInv(sh, base) && g < |sh.recs| && sh.recs[g].phase == PcClosed
    requires RecInv(r, base) && RecGrows(sh.recs[g], r) && r.phase == Finished
    ensures SharedInv(Put(sh, g, r).(groups := sh.groups - {r.group.hello.bondId}), base)
  {
  }

  lemma RunKeeps(sh: Shared, g: GroupId, ready: bool, base: int)
    requires SharedInv(sh, base)
    ensures SharedInv(RunStep(sh, g, ready, base), base)
    ensures Extends(sh, RunStep(sh, g, ready, base))
  {
    if g < |sh.recs| {
      var r := RunRec(sh.recs[g], sh.sessions, ready, base);
      RunRecKeeps(sh.recs[g], sh.sessions, ready, base);
      if sh.recs[g].phase == PcClosed {
        FinishKeeps(sh, g, r, base);
      } else {
        PutKeeps(sh, g, r, base);
      }
    }
  }

  lemma AdmitStepKeeps(sh: Shared, t: ThreadId, h: Hello, g: GroupId, base: int)
    requires SharedInv(sh, base) && ThreadInv(sh, t, Admitting(h, g))
    ensures var (sh', pc') := AdmitStep(sh, t, h, g);
            SharedInv(sh', base) && Extends(sh, sh') && ThreadInv(sh', t, pc')
  {
    var r := sh.recs[g];
    if r.mu == None && !Full(r.group) {
      PutKeeps(sh, g, r.(mu := Some(t), admitted := r.admitted + 1), base);
    }
  }

  lemma JoinStepKeeps(sh: Shared, t: ThreadId, g: GroupId, accepted: bool, base: int)
    requires SharedInv(sh, base) && ThreadInv(sh, t, Adding(g))
    ensures var (sh', pc') := JoinStep(sh, g, accepted);
            SharedInv(sh', base) && Extends(sh, sh') && ThreadInv(sh', t, pc')
  {
    var r := sh.recs[g];
    assert RecInv(r, base);
    JoinKeeps(r.group, accepted && r.pcOpen, base);
    PutKeeps(sh, g, r.(group := Join(r.group, accepted && r.pcOpen)), base);
  }

  lemma CountStepKeeps(sh: Shared, t: ThreadId, g: GroupId, base: int)
    requires SharedInv(sh, base) && ThreadInv(sh, t, CountingPaths(g))
    ensures var (sh', pc') := CountStep(sh, g, base);
            SharedInv(sh', base) && Extends(sh, sh') && ThreadInv(sh', t, pc')
  {
    var r := sh.recs[g];
    assert RecInv(r, base);
    CountKeeps(r.group, base);
    PutKeeps(sh, g, r.(group := CountPaths(r.group, base), mu := None), base);
  }

  lemma StartStepKeeps(sh: Shared, t: ThreadId, g: GroupId, base: int)
    requires SharedInv(sh, base) && ThreadInv(sh, t, StartOnce(g))
    ensures var (sh', pc') := StartStep(sh, g);
            SharedInv(sh', base) && Extends(sh, sh') && ThreadInv(sh', t, pc')
  {
    var r := sh.recs[g];
    if r.phase == Unstarted {
      PutKeeps(sh, g, r.(phase := Starting, runs := r.runs + 1), base);
    }
  }

  lemma ActKeeps(sh: Shared, pc: Pc, l: Label, p: Profile)
    requires l.Run? && SharedInv(sh, p.window) && ThreadInv(sh, l.t, pc)
    ensures var (sh', pc') := Act(sh, pc, l, p);
            SharedInv(sh', p.window) && Extends(sh, sh') && ThreadInv(sh', l.t, pc')
  {
    match pc
    case Lookup(h) => LookupKeeps(sh, l.t, h, p.window);
    case Admitting(h, g) => AdmitStepKeeps(sh, l.t, h, g, p.window);
    case Adding(g) => JoinStepKeeps(sh, l.t, g, l.accepted, p.window);
    case CountingPaths(g) => CountStepKeeps(sh, l.t, g, p.window);
    case StartOnce(g) => StartStepKeeps(sh, l.t, g, p.window);
    case _ =>
  }

  // A record whose lock is another thread's is left locked, with no more paths.
  ghost predicate LockedKept(sh: Shared, sh': Shared, t: ThreadId) {
    |sh.recs| <= |sh'.recs| && forall g :: 0 <= g < |sh.recs| && sh.recs[g].mu.Some? && sh.recs[g].mu != Some(t) ==>
      sh'.recs[g].mu == sh.recs[g].mu && sh'.recs[g].group.count <= sh.recs[g].group.count
  }

  lemma ActLocks(sh: Shared, pc: Pc, l: Label, p: Profile)
    requires l.Run? && ThreadInv(sh, l.t, pc)
    ensures LockedKept(sh, Act(sh, pc, l, p).0, l.t)
  {
  }

  lemma ThreadKept(sh: Shared, sh': Shared, t: ThreadId, u: ThreadId, pc: Pc)
    requires ThreadInv(sh, u, pc) && u != t && Extends(sh, sh') && LockedKept(sh, sh', t)
    ensures ThreadInv(sh', u, pc)
  {
  }

  // A step of the thread that will start g leaves it certain to, or g started;
  // any other thread's step leaves it as it was.
  lemma ActStarts(sh: Shared, pc: Pc, l: Label, p: Profile, g: GroupId)
    requires l.Run? && SharedInv(sh, p.window) && ThreadInv(sh, l.t, pc) && g < |Act(sh, pc, l, p).0.recs|
    requires Act(sh, pc, l, p).0.recs[g].phase == Unstarted
    ensures var (sh', pc') := Act(sh, pc, l, p);
            || WillStart(sh', pc', g)
            || (g < |sh.recs| && sh.recs[g].phase == Unstarted && sh'.recs[g].admitted == sh.recs[g].admitted
                && !WillStart(sh, pc, g))
  {
    if g < |sh.recs| {
      assert RecInv(sh.recs[g], p.window);
    }
    if pc.Admitting? {
      assert RecInv(sh.recs[pc.g], p.window);
    }
  }

  lemma HolderKept(s: State, l: Label, p: Profile)
    requires HolderInv(s) && l.Run? && l.t < |s.threads|
    ensures HolderInv(Step(s, l, p))
  {
    var s' := Step(s, l, p);
    forall g | 0 <= g < |s'.sh.recs| && s'.sh.recs[g].mu.Some?
      ensures Holder(s', s'.sh.recs[g].mu.value, g)
    {
      assert g < |s.sh.recs| && s.sh.recs[g].mu.Some? ==> Holder(s, s.sh.recs[g].mu.value, g);
    }
  }

  lemma RunInv(s: State, l: Label, p: Profile)
    requires Inv(s, p.window) && l.Run? && l.t < |s.threads|
    ensures Inv(Step(s, l, p), p.window) && Extends(s.sh, Step(s, l, p).sh)
  {
    HolderKept(s, l, p);
    var pc := s.threads[l.t];
    var s' := Step(s, l, p);
    ActKeeps(s.sh, pc, l, p);
    ActLocks(s.sh, pc, l, p);
    forall u | 0 <= u < |s'.threads|
      ensures ThreadInv(s'.sh, u, s'.threads[u])
    {
      if u != l.t {
        ThreadKept(s.sh, s'.sh, l.t, u, s.threads[u]);
      }
    }
    forall g | 0 <= g < |s'.sh.recs| && s'.sh.recs[g].phase == Unstarted
      ensures Starter(s', g)
    {
      ActStarts(s.sh, pc, l, p, g);
      if WillStart(s'.sh, s'.threads[l.t], g) {
      } else {
        var u :| 0 <= u < |s.threads| && WillStart(s.sh, s.threads[u], g);
        assert WillStart(s'.sh, s'.threads[u], g);
      }
    }
  }

  // Steps that only touch a group's record keep who is to start it.
  lemma RecordsInv(s: State, s': State, base: int)
    requires Inv(s, base) && s'.threads == s.threads
    requires SharedInv(s'.sh, base) && Extends(s.sh, s'.sh) && |s'.sh.recs| == |s.sh.recs|
    requires forall g :: 0 <= g < |s.sh.recs| ==>
               s'.sh.recs[g].admitted == s.sh.recs[g].admitted && s'.sh.recs[g].mu == s.sh.recs[g].mu &&
               s'.sh.recs[g].group.count <= s.sh.recs[g].group.count &&
               (s'.sh.recs[g].phase == Unstarted ==> s.sh.recs[g].phase == Unstarted)
    ensures Inv(s', base)
  {
    forall u | 0 <= u < |s'.threads|
      ensures ThreadInv(s'.sh, u, s'.threads[u])
    {
      assert ThreadInv(s.sh, u, s.threads[u]);
    }
    forall g | 0 <= g < |s'.sh.recs| && s'.sh.recs[g].phase == Unstarted
      ensures Starter(s', g)
    {
      var u :| 0 <= u < |s.threads| && WillStart(s.sh, s.threads[u], g);
      assert WillStart(s'.sh, s'.threads[u], g);
    }
  }

  lemma CallInv(s: State, h: Hello, p: Profile)
    requires Inv(s, p.window)
    ensures Inv(Step(s, CallAdd(h), p), p.window)
  {
    var s' := Step(s, CallAdd(h), p);
    forall u | 0 <= u < |s'.threads|
      ensures ThreadInv(s'.sh, u, s'.threads[u])
    {
      assert u == |s.threads| || ThreadInv(s.sh, u, s.threads[u]);
    }
    forall g | 0 <= g < |s'.sh.recs| && s'.sh.recs[g].phase == Unstarted
      ensures Starter(s', g)
    {
      var u :| 0 <= u < |s.threads| && WillStart(s.sh, s.threads[u], g);
      assert WillStart(s'.sh, s'.threads[u], g);
    }
  }

  lemma EventRecKeeps(r: Rec, r': Rec, base: int)
    requires RecInv(r, base) && (r' == r.(group := Lose(r.group, 1)) || r' == r.(pcOpen := false))
    ensures RecInv(r', base) && RecGrows(r, r') && r'.group.count <= r.group.count
  {
  }

  // A record changes in what no add call in flight relies on.
  lemma PutInv(s: State, g: GroupId, r: Rec, base: int)
    requires Inv(s, base) && g < |s.sh.recs| && RecInv(r, base) && RecGrows(s.sh.recs[g], r)
    requires var was := s.sh.recs[g];
             r.phase == was.phase && r.mu == was.mu && r.admitted == was.admitted && r.group.count <= was.group.count
    ensures Inv(s.(sh := Put(s.sh, g, r)), base) && Extends(s.sh, Put(s.sh, g, r))
  {
    PutKeeps(s.sh, g, r, base);
    RecordsInv(s, s.(sh := Put(s.sh, g, r)), base);
  }

  // A path loss, or the bond closing by itself.
  lemma BondEventInv(s: State, l: Label, p: Profile)
    requires Inv(s, p.window) && (l.PathLoss? || l.PcCloses?)
    ensures Inv(Step(s, l, p), p.window) && Extends(s.sh, Step(s, l, p).sh)
  {
    if l.g < |s.sh.recs| {
      var r := s.sh.recs[l.g];
      var r' := if l.PathLoss? then r.(group := Lose(r.group, 1)) else r.(pcOpen := false);
      EventRecKeeps(r, r', p.window);
      PutInv(s, l.g, r', p.window);
    }
  }

  lemma RunFrame(sh: Shared, g: GroupId, ready: bool, base: int)
    ensures var sh' := RunStep(sh, g, ready, base);
            && |sh'.recs| == |sh.recs|
            && forall i :: 0 <= i < |sh.recs| ==>
                 sh'.recs[i].admitted == sh.recs[i].admitted && sh'.recs[i].mu == sh.recs[i].mu &&
                 sh'.recs[i].group.count == sh.recs[i].group.count &&
                 (sh'.recs[i].phase == Unstarted ==> sh.recs[i].phase == Unstarted)
  {
  }

  lemma GroupRunInv(s: State, g: GroupId, ready: bool, p: Profile)
    requires Inv(s, p.window)
    ensures Inv(Step(s, RunGroup(g, ready), p), p.window) && Extends(s.sh, Step(s, RunGroup(g, ready), p).sh)
  {
    RunKeeps(s.sh, g, ready, p.window);
    RunFrame(s.sh, g, ready, p.window);
    RecordsInv(s, Step(s, RunGroup(g, ready), p), p.window);
  }

  lemma InvStep(s: State, l: Label, p: Profile)
    requires Inv(s, p.window)
    ensures Inv(Step(s, l, p), p.window) && Extends(s.sh, Step(s, l, p).sh)
  {
    match l
    case CallAdd(h) => CallInv(s, h, p);
    case Run(t, _, _) =>
      if t < |s.threads| {
        RunInv(s, l, p);
      }
    case PathLoss(_) => BondEventInv(s, l, p);
    case PcCloses(_) => BondEventInv(s, l, p);
    case RunGroup(g, ready) => GroupRunInv(s, g, ready, p);
  }

  lemma {:induction false} ExecInv(ls: seq<Label>, p: Profile)
    ensures Inv(Exec(ls, p), p.window)
  {
    if ls != [] {
      ExecInv(ls[..|ls| - 1], p);
      InvStep(Exec(ls[..|ls| - 1], p), ls[|ls| - 1], p);
    }
  }

  // ---- Theorems -----------------------------------------------------------

  // In every interleaving, a group in the map has been started or some add call
  // in flight is certain to start it.
  lemma RegisteredGroupStarts(ls: seq<Label>, p: Profile, id: string)
    requires id in Exec(ls, p).sh.groups
    ensures var s := Exec(ls, p);
            var g := s.sh.groups[id];
            g < |s.sh.recs| && (s.sh.recs[g].runs == 1 || Starter(s, g))
  {
    ExecInv(ls, p);
    var s := Exec(ls, p);
    assert RecInv(s.sh.recs[s.sh.groups[id]], p.window);
  }

  // How many of its own steps the starter has still to take.
  function StepsToStart(pc: Pc): nat {
    match pc
    case Admitting(_, _) => 4
    case Adding(_) => 3
    case CountingPaths(_) => 2
    case StartOnce(_) => 1
    case _ => 0
  }

  lemma StarterActs(sh: Shared, pc: Pc, l: Label, p: Profile, g: GroupId)
    requires l.Run? && ThreadInv(sh, l.t, pc) && g < |sh.recs| && RecInv(sh.recs[g], p.window) && WillStart(sh, pc, g)
    ensures var (sh', pc') := Act(sh, pc, l, p);
            && g < |sh'.recs|
            && (sh'.recs[g].runs == 1 || (WillStart(sh', pc', g) && StepsToStart(pc') == StepsToStart(pc) - 1))
  {
  }

  // What certain means: whatever the environment answers, the starter's own next
  // step finds the group started or brings it one step nearer to starting it; it
  // is neither refused nor blocked.
  lemma StarterIsNotRefused(ls: seq<Label>, p: Profile, t: ThreadId, g: GroupId, acked: bool, accepted: bool)
    requires t < |Exec(ls, p).threads| && g < |Exec(ls, p).sh.recs|
    requires WillStart(Exec(ls, p).sh, Exec(ls, p).threads[t], g)
    ensures var s, s' := Exec(ls, p), Step(Exec(ls, p), Run(t, acked, accepted), p);
            && 1 <= StepsToStart(s.threads[t]) <= 4
            && g < |s'.sh.recs|
            && (|| s'.sh.recs[g].runs == 1
                || (&& WillStart(s'.sh, s'.threads[t], g)
                    && StepsToStart(s'.threads[t]) == StepsToStart(s.threads[t]) - 1))
  {
    ExecInv(ls, p);
    var s := Exec(ls, p);
    assert RecInv(s.sh.recs[g], p.window);
    assert ThreadInv(s.sh, t, s.threads[t]);
    StarterActs(s.sh, s.threads[t], Run(t, acked, accepted), p, g);
  }

  // With no add call in flight, every group in the map has been started.
  lemma QuietManagerHasOnlyStartedGroups(ls: seq<Label>, p: Profile, id: string)
    requires forall t :: 0 <= t < |Exec(ls, p).threads| ==> Exec(ls, p).threads[t].Returned?
    requires id in Exec(ls, p).sh.groups
    ensures Exec(ls, p).sh.groups[id] < |Exec(ls, p).sh.recs|
    ensures Exec(ls, p).sh.recs[Exec(ls, p).sh.groups[id]].runs == 1
  {
    RegisteredGroupStarts(ls, p, id);
    assert !Starter(Exec(ls, p), Exec(ls, p).sh.groups[id]);
  }

  // A group runs at most once, and only after it has admitted a path.
  lemma GroupRunsAtMostOnce(ls: seq<Label>, p: Profile, g: GroupId)
    requires g < |Exec(ls, p).sh.recs|
    ensures var r := Exec(ls, p).sh.recs[g]; r.runs <= 1 && (r.runs == 1 ==> r.admitted > 0)
  {
    ExecInv(ls, p);
    assert RecInv(Exec(ls, p).sh.recs[g], p.window);
  }

  // A bond id has at most one unfinished group, the one the map names; so the
  // test in onDone never finds another group in its place.
  lemma OneUnfinishedGroupPerBond(ls: seq<Label>, p: Profile, g: GroupId, other: GroupId)
    requires g < |Exec(ls, p).sh.recs| && other < |Exec(ls, p).sh.recs|
    requires var recs := Exec(ls, p).sh.recs;
             && recs[g].phase != Finished && recs[other].phase != Finished
             && recs[g].group.hello.bondId == recs[other].group.hello.bondId
    ensures g == other
    ensures var sh := Exec(ls, p).sh;
            sh.recs[g].group.hello.bondId in sh.groups && sh.groups[sh.recs[g].group.hello.bondId] == g
  {
    ExecInv(ls, p);
  }

  // While a session serves, its window is the capped product of base and desired
  // paths; a V2 group never has more paths than it negotiated.
  lemma WindowAndPathLimits(ls: seq<Label>, p: Profile, g: GroupId)
    requires g < |Exec(ls, p).sh.recs|
    ensures var r := Exec(ls, p).sh.recs[g];
            && (r.phase.Serving? ==>
                  r.group.window.Some? && r.group.window.value.size == IdealWindow(r.group, p.window))
            && (r.group.hello.version == 2 ==> r.group.count <= r.group.hello.expectedPaths)
  {
    ExecInv(ls, p);
    assert RecInv(Exec(ls, p).sh.recs[g], p.window);
  }

  // No step shrinks the window of the session it finds installed.
  lemma WindowNeverShrinks(ls: seq<Label>, l: Label, p: Profile, g: GroupId)
    requires g < |Exec(ls, p).sh.recs|
    ensures g < |Exec(ls + [l], p).sh.recs|
    ensures Grows(Exec(ls, p).sh.recs[g].group, Exec(ls + [l], p).sh.recs[g].group)
  {
    ExecInv(ls, p);
    InvStep(Exec(ls, p), l, p);
    assert (ls + [l])[..|ls|] == ls;
    assert RecGrows(Exec(ls, p).sh.recs[g], Exec(ls + [l], p).sh.recs[g]);
  }

  // How many stages of its run a group has still ahead.
  function StagesLeft(phase: Phase): nat {
    match phase
    case Unstarted => 5
    case Starting => 4
    case Serving(_) => 3
    case Stopping => 2
    case PcClosed => 1
    case Finished => 0
  }

  lemma RunRecAdvances(r: Rec, session: nat, ready: bool, base: int)
    requires r.phase != Unstarted && r.phase != Finished && (r.phase == Starting || r.phase.Serving? ==> r.mu == None)
    ensures var r' := RunRec(r, session, ready, base);
            && StagesLeft(r'.phase) < StagesLeft(r.phase)
            && (r.phase == Starting ==> r'.phase == if ready then Serving(session) else Stopping)
            && (r'.phase == Finished ==> r.phase == PcClosed)
  {
  }

  // A started group's run gets to its end: each stage that does not wait for the
  // group's lock comes nearer to it, a group whose session came up serves, and at
  // the end the bond is closed and the group is out of the map.
  lemma RunAdvances(ls: seq<Label>, p: Profile, g: GroupId, ready: bool)
    requires g < |Exec(ls, p).sh.recs|
    requires var r := Exec(ls, p).sh.recs[g];
             r.phase != Unstarted && r.phase != Finished && (r.phase == Starting || r.phase.Serving? ==> r.mu == None)
    ensures var s, s' := Exec(ls, p), Step(Exec(ls, p), RunGroup(g, ready), p);
            && g < |s'.sh.recs|
            && var r, r' := s.sh.recs[g], s'.sh.recs[g];
            && StagesLeft(r'.phase) < StagesLeft(r.phase)
            && (r.phase == Starting ==> if ready then r'.phase.Serving? else r'.phase == Stopping)
            && (r'.phase == Finished ==> !r'.pcOpen && r'.group.hello.bondId !in s'.sh.groups)
  {
    ExecInv(ls, p);
    var s := Exec(ls, p);
    assert RecInv(s.sh.recs[g], p.window);
    RunRecAdvances(s.sh.recs[g], s.sh.sessions, ready, p.window);
  }
}
