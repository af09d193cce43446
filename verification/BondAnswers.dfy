// What an add call answers, over whole runs of the manager: exactly the calls that
// reached AddConn succeed, and each refusal has its reason. The accept goroutine of
// LeaseHandover relies on this answer.
module BondAnswers {
  import opened Prelude
  import opened BondHello
  import opened BondGroup
  import opened BondManager
  import ConnectionLimiter
  import BR = BondRaces
  import LH = LeaseHandover

  type Limits = ConnectionLimiter.Limits

  // ---- Success ------------------------------------------------------------

  // Thread t was about to call AddConn in some state of the run.
  predicate EverAdding(ls: seq<Label>, p: Profile, t: ThreadId) {
    || (t < |Exec(ls, p).threads| && Exec(ls, p).threads[t].Adding?)
    || (ls != [] && EverAdding(ls[..|ls| - 1], p, t))
  }

  predicate PastCheck(pc: Pc) {
    pc.Adding? || pc.CountingPaths? || pc.StartOnce? || pc == Returned(true)
  }

  lemma ActPast(sh: Shared, pc: Pc, l: Label, p: Profile)
    requires l.Run? && ThreadInv(sh, l.t, pc)
    ensures var pc' := Act(sh, pc, l, p).1; PastCheck(pc') <==> PastCheck(pc) || pc'.Adding?
  {
  }

  lemma {:induction false} PastCheckMeansAdding(ls: seq<Label>, p: Profile, t: ThreadId)
    ensures EverAdding(ls, p, t) <==> t < |Exec(ls, p).threads| && PastCheck(Exec(ls, p).threads[t])
  {
    if ls != [] {
      var before, l := ls[..|ls| - 1], ls[|ls| - 1];
      PastCheckMeansAdding(before, p, t);
      ExecInv(before, p);
      PastStep(Exec(before, p), l, p, t);
    }
  }

  lemma PastStep(s: State, l: Label, p: Profile, t: ThreadId)
    requires Inv(s, p.window)
    ensures |s.threads| <= |Step(s, l, p).threads|
    ensures t < |Step(s, l, p).threads| ==>
              var pc' := Step(s, l, p).threads[t];
              PastCheck(pc') <==> (t < |s.threads| && PastCheck(s.threads[t])) || pc'.Adding?
  {
    if l.Run? && l.t < |s.threads| {
      assert ThreadInv(s.sh, l.t, s.threads[l.t]);
      ActPast(s.sh, s.threads[l.t], l, p);
    }
  }

  // In every run an add call that has returned has succeeded exactly if it reached
  // AddConn.
  lemma SucceedsExactlyAfterAddConn(ls: seq<Label>, p: Profile, t: ThreadId)
    requires t < |Exec(ls, p).threads| && Exec(ls, p).threads[t].Returned?
    ensures Exec(ls, p).threads[t].ok <==> EverAdding(ls, p, t)
  {
    PastCheckMeansAdding(ls, p, t);
  }

  // ---- Refusals -----------------------------------------------------------

  // The group registered under the hello's bond id has another hello.
  predicate AnotherHello(sh: Shared, h: Hello) {
    h.bondId in sh.groups && sh.groups[h.bondId] < |sh.recs| && sh.recs[sh.groups[h.bondId]].group.hello != h
  }

  // This step refuses thread t, for one of the reasons there are: a hello that is
  // invalid or, in V2, of another profile; another hello registered for the bond; an
  // acknowledgement that did not go out; or a V2 group with its negotiated paths.
  predicate Refuses(s: State, l: Label, p: Profile, t: ThreadId) {
    match l
    case CallAdd(h) =>
      && t == |s.threads|
      && (|| !ValidHello(h)
          || (h.version == 2 && (h.mtu != p.mtu || h.fecData != p.fecData || h.fecParity != p.fecParity)))
    case Run(u, acked, _) =>
      && u == t && t < |s.threads|
      && (match s.threads[t]
          case CheckGroup(h) => AnotherHello(s.sh, h)
          case SendAck(_) => !acked
          case Lookup(h) => AnotherHello(s.sh, h)
          case Admitting(h, g) =>
            && g < |s.sh.recs| && s.sh.recs[g].mu == None
            && h.version == 2 && s.sh.recs[g].group.count >= h.expectedPaths
          case _ => false)
    case _ => false
  }

  predicate EverRefused(ls: seq<Label>, p: Profile, t: ThreadId) {
    ls != [] && (EverRefused(ls[..|ls| - 1], p, t) || Refuses(Exec(ls[..|ls| - 1], p), ls[|ls| - 1], p, t))
  }

  lemma RefusalStep(s: State, l: Label, p: Profile, t: ThreadId)
    requires Inv(s, p.window)
    ensures |s.threads| <= |Step(s, l, p).threads|
    ensures (t < |Step(s, l, p).threads| && Step(s, l, p).threads[t] == Returned(false)) <==>
              (t < |s.threads| && s.threads[t] == Returned(false)) || Refuses(s, l, p, t)
  {
    if l.Run? && l.t < |s.threads| {
      assert ThreadInv(s.sh, l.t, s.threads[l.t]);
    }
  }

  // In every run an add call has been refused exactly if there was a reason.
  lemma {:induction false} RefusedExactlyForAReason(ls: seq<Label>, p: Profile, t: ThreadId)
    ensures t < |Exec(ls, p).threads| && Exec(ls, p).threads[t] == Returned(false) <==> EverRefused(ls, p, t)
  {
    if ls != [] {
      RefusedExactlyForAReason(ls[..|ls| - 1], p, t);
      ExecInv(ls[..|ls| - 1], p);
      RefusalStep(Exec(ls[..|ls| - 1], p), ls[|ls| - 1], p, t);
    }
  }

  // ---- Acknowledgements ---------------------------------------------------

  // Thread t's acknowledgement went out in some step of the run.
  predicate EverAcked(ls: seq<Label>, p: Profile, t: ThreadId) {
    && ls != []
    && (EverAcked(ls[..|ls| - 1], p, t) || Acks(Exec(ls[..|ls| - 1], p), ls[|ls| - 1], t))
  }

  // acked says whether thread t has sent its acknowledgement.
  predicate AckLaw(s: State, t: ThreadId, acked: bool) {
    if t < |s.threads| then
      var pc := s.threads[t];
      && (pc.CheckGroup? || pc.SendAck? ==> !acked)
      && (pc.SendAck? ==> pc.h.version == 2)
      && (pc.Lookup? || pc.Admitting? ==> (acked <==> pc.h.version == 2))
      && (InSection(pc) || pc.StartOnce? ==>
            pc.g < |s.sh.recs| && (acked <==> s.sh.recs[pc.g].group.hello.version == 2))
    else !acked
  }

  lemma AckStep(s: State, l: Label, p: Profile, t: ThreadId)
    requires Inv(s, p.window) && l.Run? && l.t == t < |s.threads|
    ensures var pc, pc' := s.threads[t], Step(s, l, p).threads[t];
            && (pc'.CheckGroup? ==> pc' == pc)
            && (pc'.SendAck? ==> pc' == pc || (pc == CheckGroup(pc'.h) && pc'.h.version == 2))
            && (pc'.Lookup? ==>
                  pc' == pc || (pc == SendAck(pc'.h) && l.acked) || (pc == CheckGroup(pc'.h) && pc'.h.version != 2))
            && (pc'.Admitting? ==> pc' == pc || pc == Lookup(pc'.h))
            && (InSection(pc') || pc'.StartOnce? ==>
                  pc' == pc || ((pc.Admitting? || InSection(pc)) && pc.g == pc'.g))
  {
    assert ThreadInv(s.sh, t, s.threads[t]);
  }

  predicate Acks(s: State, l: Label, t: ThreadId) {
    l.Run? && l.t == t && l.acked && t < |s.threads| && s.threads[t].SendAck?
  }

  lemma AckLawKept(s: State, l: Label, p: Profile, t: ThreadId, acked: bool)
    requires Inv(s, p.window) && AckLaw(s, t, acked)
    ensures AckLaw(Step(s, l, p), t, acked || Acks(s, l, t))
  {
    InvStep(s, l, p);
    var s' := Step(s, l, p);
    if l.Run? && l.t == t && t < |s.threads| {
      AckStep(s, l, p, t);
      assert ThreadInv(s.sh, t, s.threads[t]);
    }
    forall g | 0 <= g < |s.sh.recs|
      ensures g < |s'.sh.recs| && s'.sh.recs[g].group.hello == s.sh.recs[g].group.hello
    {
      assert RecGrows(s.sh.recs[g], s'.sh.recs[g]);
    }
  }

  // In every run exactly the V2 calls are acknowledged, and before they go on: past
  // the acknowledgement a call has sent one if and only if its hello, or its group's,
  // is V2.
  lemma {:induction false} OnlyV2IsAcknowledged(ls: seq<Label>, p: Profile, t: ThreadId)
    ensures AckLaw(Exec(ls, p), t, EverAcked(ls, p, t))
  {
    if ls != [] {
      OnlyV2IsAcknowledged(ls[..|ls| - 1], p, t);
      ExecInv(ls[..|ls| - 1], p);
      AckLawKept(Exec(ls[..|ls| - 1], p), ls[|ls| - 1], p, t, EverAcked(ls[..|ls| - 1], p, t));
    }
  }

  // ---- The answer and the accept goroutine --------------------------------

  // Where a call of add is, seen from its caller's connection.
  datatype Phase = BeforeAddConn | AddConnCalled | Answered(ok: bool)

  function PhaseOf(pc: Pc): Phase {
    match pc
    case Returned(ok) => Answered(ok)
    case CountingPaths(_) => AddConnCalled
    case StartOnce(_) => AddConnCalled
    case _ => BeforeAddConn
  }

  function GoroutinePhase(g: LH.Goroutine): Option<Phase> {
    match g
    case InAdd => Some(BeforeAddConn)
    case InAddConn(_) => Some(AddConnCalled)
    case AddReturned(ok) => Some(Answered(ok))
    case _ => None
  }

  // An error is answered only before AddConn, nil only after it.
  predicate Follows(a: Phase, b: Phase) {
    || b == a
    || (a == BeforeAddConn && (b == AddConnCalled || b == Answered(false)))
    || (a == AddConnCalled && b == Answered(true))
  }

  // The manager's calls go through these phases,
  lemma ManagerFollows(ls: seq<Label>, l: Label, p: Profile, t: ThreadId)
    requires t < |Exec(ls, p).threads|
    ensures t < |Step(Exec(ls, p), l, p).threads|
    ensures Follows(PhaseOf(Exec(ls, p).threads[t]), PhaseOf(Step(Exec(ls, p), l, p).threads[t]))
  {
    ExecInv(ls, p);
    var s := Exec(ls, p);
    if l.Run? && l.t == t {
      assert ThreadInv(s.sh, t, s.threads[t]);
      ActFollows(s.sh, s.threads[t], l, p);
    }
  }

  lemma ActFollows(sh: Shared, pc: Pc, l: Label, p: Profile)
    requires l.Run? && ThreadInv(sh, l.t, pc)
    ensures Follows(PhaseOf(pc), PhaseOf(Act(sh, pc, l, p).1))
  {
  }

  // A bond's step leaves every goroutine where it is.
  lemma BondStepKeepsGoroutines(s: LH.State, b: LH.BondId, l: BR.Label, c: LH.ConnId)
    requires b < |s.bonds| && !l.CallAddConn? && c < |s.conns|
    ensures |LH.BondStep(s, b, l).conns| == |s.conns| && LH.BondStep(s, b, l).conns[c].g == s.conns[c].g
  {
  }

  // AddConn, which runs as a thread of the bond, has returned.
  predicate AddConnReturned(s: LH.State, c: LH.Conn) {
    && c.g.InAddConn? && c.joined.Some? && c.joined.value.0 < |s.bonds|
    && c.g.t < |s.bonds[c.joined.value.0].s.threads|
    && s.bonds[c.joined.value.0].s.threads[c.g.t] == BR.Stopped
  }

  lemma GoroutineStepFollows(s: LH.State, c: LH.ConnId, outcome: LH.Outcome, m: Limits)
    requires c < |s.conns| && (s.conns[c].g.InAdd? || s.conns[c].g.InAddConn?)
    ensures var s' := LH.Step(s, LH.RunGoroutine(c, outcome), m);
            && c < |s'.conns|
            && var g, g' := s.conns[c].g, s'.conns[c].g;
            && GoroutinePhase(g').Some? && Follows(GoroutinePhase(g).value, GoroutinePhase(g').value)
            && (g' == LH.AddReturned(true) ==> AddConnReturned(s, s.conns[c]))
  {
  }

  // and so do the accept goroutines while they are in add; they answer nil only when
  // AddConn has returned.
  lemma GoroutineFollows(ls: seq<LH.Label>, l: LH.Label, m: Limits, c: LH.ConnId)
    requires c < |LH.Exec(ls, m).conns|
    requires var g := LH.Exec(ls, m).conns[c].g; g.InAdd? || g.InAddConn?
    ensures var s, s' := LH.Exec(ls, m), LH.Step(LH.Exec(ls, m), l, m);
            && c < |s'.conns|
            && var g, g' := s.conns[c].g, s'.conns[c].g;
            && GoroutinePhase(g').Some? && Follows(GoroutinePhase(g).value, GoroutinePhase(g').value)
            && (g' == LH.AddReturned(true) ==> AddConnReturned(s, s.conns[c]))
  {
    var s := LH.Exec(ls, m);
    if l.RunGoroutine? && l.c == c {
      GoroutineStepFollows(s, c, l.outcome, m);
    } else if l.RunBond? && l.b < |s.bonds| && !l.l.CallAddConn? {
      BondStepKeepsGoroutines(s, l.b, l.l, c);
    }
  }
}
