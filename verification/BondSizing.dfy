// How many paths a bond's KCP window is sized for, over whole runs of the manager:
// the most that a Count has observed, which may be fewer than there have been.
module BondSizing {
  import opened Prelude
  import opened BondHello
  import opened BondGroup
  import opened BondManager

  function Max(a: nat, b: nat): nat {
    if a < b then b else a
  }

  // The largest path count that group g has had so far.
  function Peak(ls: seq<Label>, p: Profile, g: GroupId): nat {
    if ls == [] then 0
    else
      var recs := Exec(ls, p).sh.recs;
      Max(Peak(ls[..|ls| - 1], p, g), if g < |recs| then recs[g].group.count else 0)
  }

  // The path count that this step's call of Count on group g sees, if it is one.
  function Sighting(s: State, l: Label, g: GroupId): nat {
    if l.Run? && l.t < |s.threads| && s.threads[l.t] == CountingPaths(g) && g < |s.sh.recs|
    then s.sh.recs[g].group.count
    else 0
  }

  // The largest path count an add call has observed.
  function Observed(ls: seq<Label>, p: Profile, g: GroupId): nat {
    if ls == [] then 0
    else Max(Observed(ls[..|ls| - 1], p, g), Sighting(Exec(ls[..|ls| - 1], p), ls[|ls| - 1], g))
  }

  // The path count at which this step loses a path of group g, if no Count has ever
  // seen so many.
  function Miss(s: State, l: Label, g: GroupId): nat {
    if l == PathLoss(g) && g < |s.sh.recs| && s.sh.recs[g].group.count > s.sh.recs[g].group.maxPaths
    then s.sh.recs[g].group.count
    else 0
  }

  // The largest path count that was lost before a Count could see it.
  function Missed(ls: seq<Label>, p: Profile, g: GroupId): nat {
    if ls == [] then 0
    else Max(Missed(ls[..|ls| - 1], p, g), Miss(Exec(ls[..|ls| - 1], p), ls[|ls| - 1], g))
  }

  // This step's AddConn gives group g a path.
  predicate Joins(s: State, l: Label, g: GroupId)
    requires g < |s.sh.recs|
  {
    l.Run? && l.t < |s.threads| && s.threads[l.t] == Adding(g) && l.accepted && s.sh.recs[g].pcOpen
  }

  // One step of a group: Count raises the maximum to what it sees, an AddConn that the
  // bond accepts raises the count by one, and a loss lowers it by one.
  ghost predicate CountMove(s: State, l: Label, p: Profile, g: GroupId)
    requires g < |s.sh.recs|
  {
    var s' := Step(s, l, p);
    && g < |s'.sh.recs|
    && var a, b := s.sh.recs[g].group, s'.sh.recs[g].group;
    && b.maxPaths == Max(a.maxPaths, Sighting(s, l, g))
    && b.count == (if l == PathLoss(g) && a.count > 0 then a.count - 1 else a.count + if Joins(s, l, g) then 1 else 0)
  }

  lemma RunRecCounts(r: Rec, session: nat, ready: bool, base: int)
    ensures var r' := RunRec(r, session, ready, base);
            r'.group.maxPaths == r.group.maxPaths && r'.group.count == r.group.count
  {
  }

  lemma StepCounts(s: State, l: Label, p: Profile, g: GroupId)
    requires g < |s.sh.recs|
    ensures CountMove(s, l, p, g)
  {
    if l.RunGroup? && l.g == g {
      RunRecCounts(s.sh.recs[g], s.sh.sessions, l.ready, p.window);
    }
  }

  // A group that this step creates is empty.
  lemma NewGroupCounts(s: State, l: Label, p: Profile, g: GroupId)
    requires |s.sh.recs| <= g < |Step(s, l, p).sh.recs|
    ensures var group := Step(s, l, p).sh.recs[g].group; group.maxPaths == group.count == 0
    ensures Sighting(s, l, g) == Miss(s, l, g) == 0
  {
  }

  ghost predicate PeakLaw(ls: seq<Label>, p: Profile, g: GroupId) {
    var recs := Exec(ls, p).sh.recs;
    if g < |recs| then
      && recs[g].group.maxPaths == Observed(ls, p, g)
      && Peak(ls, p, g) == Max(Max(Observed(ls, p, g), Missed(ls, p, g)), recs[g].group.count)
    else Peak(ls, p, g) == Observed(ls, p, g) == Missed(ls, p, g) == 0
  }

  // In every run a group's maximum is the most paths a Count has observed, and the
  // most paths it has had are those, or were missed, or are there now.
  lemma {:induction false} PeakIsObservedOrMissed(ls: seq<Label>, p: Profile, g: GroupId)
    ensures PeakLaw(ls, p, g)
  {
    if ls != [] {
      var before, l := ls[..|ls| - 1], ls[|ls| - 1];
      var s := Exec(before, p);
      PeakIsObservedOrMissed(before, p, g);
      if g < |s.sh.recs| {
        StepCounts(s, l, p, g);
      } else if g < |Exec(ls, p).sh.recs| {
        NewGroupCounts(s, l, p, g);
      }
    }
  }

  // A count is missed only between an add call's AddConn and its Count.
  lemma MissedBeforeCount(ls: seq<Label>, l: Label, p: Profile, g: GroupId)
    requires Miss(Exec(ls, p), l, g) > 0
    ensures exists t :: 0 <= t < |Exec(ls, p).threads| && Exec(ls, p).threads[t] == CountingPaths(g)
  {
    ExecInv(ls, p);
    var s := Exec(ls, p);
    assert RecInv(s.sh.recs[g], p.window);
    var t := s.sh.recs[g].mu.value;
    assert Holder(s, t, g) && ThreadInv(s.sh, t, s.threads[t]);
  }

  // In every run a V2 group is sized for its negotiated paths, and a V1 group for
  // the most paths a Count has observed, at least one. With no add call under the
  // group's lock, those are the most paths it has had at once exactly if no larger
  // number was missed.
  lemma SizedForObserved(ls: seq<Label>, p: Profile, g: GroupId)
    requires g < |Exec(ls, p).sh.recs|
    ensures var r := Exec(ls, p).sh.recs[g];
            && Observed(ls, p, g) <= Peak(ls, p, g)
            && DesiredPaths(r.group) ==
               (if r.group.hello.version == 2 then r.group.hello.expectedPaths else Max(1, Observed(ls, p, g)))
            && (r.mu == None ==> (Observed(ls, p, g) == Peak(ls, p, g) <==> Missed(ls, p, g) <= Observed(ls, p, g)))
  {
    ExecInv(ls, p);
    PeakIsObservedOrMissed(ls, p, g);
    assert RecInv(Exec(ls, p).sh.recs[g], p.window);
  }

  // ---- A closed bond ------------------------------------------------------

  lemma ClosedStep(s: State, l: Label, p: Profile, g: GroupId)
    requires g < |s.sh.recs| && (!s.sh.recs[g].pcOpen || l == PcCloses(g))
    ensures var s' := Step(s, l, p);
            g < |s'.sh.recs| && !s'.sh.recs[g].pcOpen && s'.sh.recs[g].group.count <= s.sh.recs[g].group.count
  {
    StepCounts(s, l, p, g);
    if l.RunGroup? && l.g == g {
      RunRecCounts(s.sh.recs[g], s.sh.sessions, l.ready, p.window);
    }
  }

  // Once its bond is closed a group never gets another path, whatever runs.
  lemma {:induction false} ClosedGroupTakesNoPath(ls: seq<Label>, more: seq<Label>, p: Profile, g: GroupId)
    requires g < |Exec(ls, p).sh.recs|
    ensures var closed := ls + [PcCloses(g)] + more;
            && g < |Exec(closed, p).sh.recs| && !Exec(closed, p).sh.recs[g].pcOpen
            && Exec(closed, p).sh.recs[g].group.count <= Exec(ls, p).sh.recs[g].group.count
  {
    var closed := ls + [PcCloses(g)];
    if more == [] {
      assert closed + more == closed && closed[..|ls|] == ls;
      ClosedStep(Exec(ls, p), PcCloses(g), p, g);
    } else {
      var before := closed + more[..|more| - 1];
      ClosedGroupTakesNoPath(ls, more[..|more| - 1], p, g);
      assert (closed + more)[..|closed + more| - 1] == before;
      ClosedStep(Exec(before, p), more[|more| - 1], p, g);
    }
  }

  // ---- A peak can be missed -----------------------------------------------

  lemma Next(ls: seq<Label>, l: Label, p: Profile) returns (next: seq<Label>)
    ensures next == ls + [l] && Exec(next, p) == Step(Exec(ls, p), l, p)
  {
    next := ls + [l];
    assert next[..|ls|] == ls;
  }

  // One step of thread t that changes the record of group g and takes it to pc.
  lemma Moves(ls: seq<Label>, t: ThreadId, g: GroupId, r: Rec, pc: Pc, p: Profile) returns (next: seq<Label>)
    requires t < |Exec(ls, p).threads| && g < |Exec(ls, p).sh.recs|
    requires Act(Exec(ls, p).sh, Exec(ls, p).threads[t], Go(t), p) == (Put(Exec(ls, p).sh, g, r), pc)
    ensures next == ls + [Go(t)]
    ensures Exec(next, p) == State(Put(Exec(ls, p).sh, g, r), Exec(ls, p).threads[t := pc])
  {
    next := Next(ls, Go(t), p);
  }

  function Go(t: ThreadId): Label {
    Run(t, true, true)
  }

  // A group of one bond, with an unlocked record.
  function One(h: Hello, r: Rec, threads: seq<Pc>): State {
    State(Shared(map[h.bondId := 0], [r], 0), threads)
  }

  // An add call undisturbed up to its AddConn.
  lemma Adds(ls: seq<Label>, h: Hello, r: Rec, threads: seq<Pc>, p: Profile) returns (next: seq<Label>)
    requires ValidHello(h) && h.version == 1 && r.group.hello == h && r.mu == None && r.pcOpen
    requires Exec(ls, p) == One(h, r, threads)
    ensures Exec(next, p) ==
            One(h, r.(group := Join(r.group, true), mu := Some(|threads|), admitted := r.admitted + 1),
                threads + [CountingPaths(0)])
  {
    var t := |threads|;
    next := Next(ls, CallAdd(h), p);
    assert [r][0 := r] == [r];
    next := Moves(next, t, 0, r, Lookup(h), p);
    next := Moves(next, t, 0, r, Admitting(h, 0), p);
    var locked := r.(mu := Some(t), admitted := r.admitted + 1);
    next := Moves(next, t, 0, locked, Adding(0), p);
    next := Moves(next, t, 0, locked.(group := Join(r.group, true)), CountingPaths(0), p);
    assert Exec(next, p).threads == threads + [CountingPaths(0)];
  }

  // The first add call of a bond registers its group,
  lemma FirstGroup(h: Hello, p: Profile) returns (ls: seq<Label>)
    requires ValidHello(h) && h.version == 1
    ensures Exec(ls, p) == One(h, Rec(NewGroup(h), None, Unstarted, true, 0, 0), [Admitting(h, 0)])
  {
    ls := Next([], CallAdd(h), p);
    assert Exec(ls, p).threads == [CheckGroup(h)];
    ls := Next(ls, Go(0), p);
    assert Exec(ls, p).threads == [Lookup(h)];
    ls := Next(ls, Go(0), p);
  }

  // and undisturbed gives it a path and sees it.
  lemma FirstPath(h: Hello, p: Profile) returns (ls: seq<Label>)
    requires ValidHello(h) && h.version == 1
    ensures Exec(ls, p) == One(h, Rec(Group(h, 1, 1, None, 0), None, Unstarted, true, 1, 0), [StartOnce(0)])
  {
    var r := Rec(NewGroup(h), None, Unstarted, true, 0, 0);
    ls := FirstGroup(h, p);
    ls := Moves(ls, 0, 0, r.(mu := Some(0), admitted := 1), Adding(0), p);
    ls := Moves(ls, 0, 0, r.(group := Join(r.group, true), mu := Some(0), admitted := 1), CountingPaths(0), p);
    ls := Moves(ls, 0, 0, Rec(Group(h, 1, 1, None, 0), None, Unstarted, true, 1, 0), StartOnce(0), p);
  }

  lemma PeakGrows(ls: seq<Label>, l: Label, p: Profile, g: GroupId)
    ensures Peak(ls, p, g) <= Peak(ls + [l], p, g)
  {
    assert (ls + [l])[..|ls|] == ls;
  }

  lemma PeakBounds(ls: seq<Label>, p: Profile, g: GroupId)
    requires g < |Exec(ls, p).sh.recs|
    ensures Exec(ls, p).sh.recs[g].group.count <= Peak(ls, p, g)
  {
  }

  // A V1 group may be sized for fewer paths than it has had at once: the first of
  // two is lost between the AddConn of the second and its Count.
  lemma PeakMissed(h: Hello, p: Profile) returns (ls: seq<Label>)
    requires ValidHello(h) && h.version == 1
    ensures var s := Exec(ls, p);
            |s.sh.recs| == 1 && s.sh.recs[0].mu == None && DesiredPaths(s.sh.recs[0].group) == 1 < Peak(ls, p, 0)
  {
    var one := FirstPath(h, p);
    var two := Adds(one, h, Rec(Group(h, 1, 1, None, 0), None, Unstarted, true, 1, 0), [StartOnce(0)], p);
    PeakBounds(two, p, 0);
    var lost := Next(two, PathLoss(0), p);
    PeakGrows(two, PathLoss(0), p, 0);
    ls := Moves(lost, 1, 0, Rec(Group(h, 1, 1, None, 0), None, Unstarted, true, 2, 0), StartOnce(0), p);
    PeakGrows(lost, Go(1), p, 0);
  }
}
