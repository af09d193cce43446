// The life of an admitted server connection: the accept goroutine owns its lease
// and its socket until the bond takes the path, and from then on the bond does.
//
// The bonds are those of BondRaces, with all their threads. A connection that
// reaches AddConn becomes a path of one of them; the socket is closed and the
// lease returned by whichever thread performs ConnClosed and CleanupRan on it.
module LeaseHandover {
  import opened Prelude
  import opened ConnectionLimiter
  import BondedConn
  import BR = BondRaces
  import BO = BondOwnership
  import BC = BondClosing

  type ConnId = nat
  type BondId = nat
  type PathId = BondedConn.PathId

  // The accept goroutine.
  datatype Goroutine =
    | Admitted                  // lease taken, gauge not yet raised
    | Working                   // handshake, authentication, or serving without a bond
    | InAdd                     // in add, before AddConn: it may still return an error
    | InAddConn(t: BR.ThreadId) // AddConn runs, as thread t of the bond
    | AddReturned(ok: bool)     // add returned nil or an error
    | Disowned                  // ownsConn cleared
    | Returning                 // about to close the socket if it owns it
    | Deferred                  // about to release the lease if it is to
    | Lowering                  // released: about to lower the gauge
    | Gone

  // owns and release are the goroutine's ownsConn and releaseOnReturn. lowering:
  // the path's cleanup has released the lease and not yet lowered the gauge. used:
  // the lease's once has run. releases and closes are history: the calls that gave
  // the slot back, and the socket closes.
  datatype Conn = Conn(
    ip: string,
    g: Goroutine,
    owns: bool,
    release: bool,
    joined: Option<(BondId, PathId)>,
    lowering: bool,
    used: bool,
    releases: nat,
    closes: nat)

  // A bond, and the connection behind each of its paths.
  datatype Bond = Bond(s: BR.State, owners: seq<ConnId>)

  datatype State = State(counts: Counts, gauge: int, conns: seq<Conn>, bonds: seq<Bond>)

  datatype Outcome = Fails | EntersAdd | CallsAddConn(b: BondId)

  datatype Label =
    | Accept(ip: Option<string>)
    | NewBond
    | RunGoroutine(c: ConnId, outcome: Outcome)
    // any step of bond b but a new AddConn, which is a connection's
    | RunBond(b: BondId, l: BR.Label)
    | LowerGauge(c: ConnId)

  const START := State(Counts(0, map[]), 0, [], [])

  // lease.Release through its once: the first call gives the slot back.
  function ReleaseLease(counts: Counts, c: Conn): (Counts, Conn, bool) {
    if c.used then (counts, c, false)
    else (ConnectionLimiter.Release(counts, c.ip), c.(used := true, releases := c.releases + 1), true)
  }

  // A step of the goroutine on its own; done: AddConn's thread has finished.
  function GoroutineStep(counts: Counts, gauge: int, c: Conn, outcome: Outcome, done: bool): (Counts, int, Conn) {
    match c.g
    case Admitted => (counts, gauge + 1, c.(g := Working))
    case Working => (counts, gauge, c.(g := if outcome.EntersAdd? then InAdd else Returning))
    case InAdd => (counts, gauge, if outcome.Fails? then c.(g := AddReturned(false)) else c)
    case InAddConn(_) => (counts, gauge, if done then c.(g := AddReturned(true)) else c)
    case AddReturned(ok) => (counts, gauge, if ok then c.(g := Disowned, owns := false) else c.(g := Returning))
    case Disowned => (counts, gauge, c.(g := Returning, release := false))
    case Returning => (counts, gauge, c.(g := Deferred, closes := c.closes + if c.owns then 1 else 0))
    case Deferred =>
      if !c.release then (counts, gauge, c.(g := Gone))
      else
        var (counts', c', first) := ReleaseLease(counts, c);
        (counts', gauge, c'.(g := if first then Lowering else Gone))
    case Lowering => (counts, gauge - 1, c.(g := Gone))
    case Gone => (counts, gauge, c)
  }

  // The path a bond step retires, and how far it had come: RETIREMENT[n] happens.
  function Retiring(s: BR.State, l: BR.Label): Option<(PathId, nat)> {
    if l.Run? && l.t < |s.threads| && s.threads[l.t].Retire? then Some((s.threads[l.t].p, s.threads[l.t].n)) else None
  }

  // What RETIREMENT[n] does to the connection behind the path.
  function Retire(counts: Counts, c: Conn, n: nat): (Counts, Conn) {
    if n == 0 then (counts, c.(closes := c.closes + 1))
    else if n == 1 then
      var (counts', c', first) := ReleaseLease(counts, c);
      (counts', c'.(lowering := first))
    else (counts, c)
  }

  // AddConn is called with connection c.
  function CallAddConn(s: State, c: ConnId, b: BondId): State
    requires c < |s.conns| && b < |s.bonds|
  {
    var bond := s.bonds[b];
    var joined := s.conns[c].(g := InAddConn(|bond.s.threads|), joined := Some((b, |bond.owners|)));
    s.(conns := s.conns[c := joined],
       bonds := s.bonds[b := Bond(BR.Step(bond.s, BR.CallAddConn), bond.owners + [c])])
  }

  // A cleanup ends with lowering the gauge, and only then is done closed.
  function BondStep(s: State, b: BondId, l: BR.Label): State
    requires b < |s.bonds| && !l.CallAddConn?
  {
    var bond := s.bonds[b];
    var moved := s.(bonds := s.bonds[b := bond.(s := BR.Step(bond.s, l))]);
    match Retiring(bond.s, l)
    case None => moved
    case Some((p, n)) =>
      if p < |bond.owners| && bond.owners[p] < |s.conns| then
        var c := bond.owners[p];
        if s.conns[c].lowering then s
        else
          var (counts, conn) := Retire(s.counts, s.conns[c], n);
          moved.(counts := counts, conns := s.conns[c := conn])
      else s
  }

  predicate AddConnDone(s: State, c: Conn) {
    && c.g.InAddConn? && c.joined.Some? && c.joined.value.0 < |s.bonds|
    && var threads := s.bonds[c.joined.value.0].s.threads; c.g.t < |threads| && threads[c.g.t] == BR.Stopped
  }

  // One step of the whole system. A step that is not enabled changes nothing.
  function Step(s: State, l: Label, m: Limits): State {
    match l
    case Accept(ip) =>
      var (counts, verdict) := Admit(s.counts, ip, m);
      if verdict == Accepted && ip.Some? then
        s.(counts := counts, conns := s.conns + [Conn(ip.value, Admitted, true, true, None, false, false, 0, 0)])
      else s
    case NewBond => s.(bonds := s.bonds + [Bond(BR.START, [])])
    case RunGoroutine(c, outcome) =>
      if c >= |s.conns| then s
      else if s.conns[c].g.InAdd? && outcome.CallsAddConn? then
        if outcome.b < |s.bonds| then CallAddConn(s, c, outcome.b) else s
      else
        var (counts, gauge, conn) := GoroutineStep(s.counts, s.gauge, s.conns[c], outcome, AddConnDone(s, s.conns[c]));
        s.(counts := counts, gauge := gauge, conns := s.conns[c := conn])
    case RunBond(b, bl) => if b < |s.bonds| && !bl.CallAddConn? then BondStep(s, b, bl) else s
    case LowerGauge(c) =>
      if c < |s.conns| && s.conns[c].lowering then
        s.(gauge := s.gauge - 1, conns := s.conns[c := s.conns[c].(lowering := false)])
      else s
  }

  function Exec(ls: seq<Label>, m: Limits): State {
    if ls == [] then START else Step(Exec(ls[..|ls| - 1], m), ls[|ls| - 1], m)
  }

  // ---- The bonds ----------------------------------------------------------

  ghost predicate BondInv(s: BR.State) {
    BO.LockInv(s) && BO.OwnerInv(s) && BC.CloseInv(s)
  }

  lemma BondKept(s: BR.State, l: BR.Label)
    requires BondInv(s)
    ensures BondInv(BR.Step(s, l))
  {
    BO.LockStep(s, l);
    BO.OwnerStep(s, l);
    BC.CloseStep(s, l);
  }

  // The logs of a bond move only by retirement, one event after the other.
  lemma LogMoves(s: BR.State, l: BR.Label)
    requires BO.OwnerInv(s) && !l.CallAddConn?
    ensures var log, log' := s.sh.log, BR.Step(s, l).sh.log;
            match Retiring(s, l)
            case None => log' == log
            case Some((p, n)) =>
              && p < |log| && n < |BR.RETIREMENT| && log[p] == BR.RETIREMENT[..n]
              && log' == log[p := BR.RETIREMENT[..n + 1]]
  {
    if l.Run? && l.t < |s.threads| {
      var pc := s.threads[l.t];
      BO.ActOwner(s.sh, l.t, pc, l.rotation, l.outcome);
      assert BO.ChargedOne(s.sh, pc);
      if pc.Retire? {
        assert BR.RETIREMENT[..pc.n] + [BR.RETIREMENT[pc.n]] == BR.RETIREMENT[..pc.n + 1];
      }
    }
  }

  // ---- One connection -----------------------------------------------------

  // How many retirement events the connection's path has seen.
  function Events(bonds: seq<Bond>, c: Conn): nat {
    if c.joined.Some? && c.joined.value.0 < |bonds| && c.joined.value.1 < |bonds[c.joined.value.0].s.sh.log|
    then |bonds[c.joined.value.0].s.sh.log[c.joined.value.1]|
    else 0
  }

  // Until AddConn the goroutine is in charge of lease and socket and nobody else
  // is; from then on the bond is, and the goroutine comes to know it before it
  // returns.
  predicate ConnInv(c: Conn, events: nat) {
    && c.releases == (if c.used then 1 else 0)
    && if c.joined == None then
         && c.owns && c.release && !c.lowering && events == 0
         && !c.g.InAddConn? && c.g != AddReturned(true) && c.g != Disowned
         && (c.used <==> c.g in {Lowering, Gone})
         && c.closes == (if c.g in {Deferred, Lowering, Gone} then 1 else 0)
       else
         && (c.g.InAddConn? || c.g in {AddReturned(true), Disowned, Returning, Deferred, Gone})
         && (c.owns <==> c.g.InAddConn? || c.g == AddReturned(true))
         && (c.release <==> c.owns || c.g == Disowned)
         && (c.used <==> events >= 2)
         && c.closes == (if events >= 1 then 1 else 0)
         && (c.lowering ==> events == 2)
  }

  // Raised but not yet lowered.
  predicate Open(c: Conn) {
    c.g != Admitted && (!c.used || c.g == Lowering || c.lowering)
  }

  ghost function Bag(c: Conn): multiset<string> {
    if c.used then multiset{} else multiset{c.ip}
  }

  // The addresses of the live leases.
  ghost function Live(conns: seq<Conn>): multiset<string> {
    if conns == [] then multiset{} else Live(conns[..|conns| - 1]) + Bag(conns[|conns| - 1])
  }

  function One(c: Conn): nat {
    if Open(c) then 1 else 0
  }

  function OpenCount(conns: seq<Conn>): nat {
    if conns == [] then 0 else OpenCount(conns[..|conns| - 1]) + One(conns[|conns| - 1])
  }

  lemma Cancel(a: multiset<string>, b: multiset<string>, c: multiset<string>)
    requires a + c == b + c
    ensures a == b
  {
    forall ip: string
      ensures a[ip] == b[ip]
    {
      assert (a + c)[ip] == a[ip] + c[ip] && (b + c)[ip] == b[ip] + c[ip];
    }
  }

  lemma Regroup(a: multiset<string>, b: multiset<string>, c: multiset<string>)
    ensures (a + b) + c == (a + c) + b
  {
  }

  lemma {:induction false} LiveUpdate(conns: seq<Conn>, i: ConnId, c: Conn)
    requires i < |conns|
    ensures Live(conns[i := c]) + Bag(conns[i]) == Live(conns) + Bag(c)
  {
    var last := |conns| - 1;
    if i == last {
      assert conns[i := c][..last] == conns[..last];
    } else {
      LiveUpdate(conns[..last], i, c);
      assert conns[i := c][..last] == conns[..last][i := c];
      Regroup(Live(conns[..last][i := c]), Bag(conns[last]), Bag(conns[i]));
      Regroup(Live(conns[..last]), Bag(conns[last]), Bag(c));
    }
  }

  lemma {:induction false} OpenUpdate(conns: seq<Conn>, i: ConnId, c: Conn)
    requires i < |conns|
    ensures OpenCount(conns[i := c]) == OpenCount(conns) - One(conns[i]) + One(c)
  {
    var last := |conns| - 1;
    if i == last {
      assert conns[i := c][..last] == conns[..last];
    } else {
      OpenUpdate(conns[..last], i, c);
      assert conns[i := c][..last] == conns[..last][i := c];
    }
  }

  // Connections and paths point at each other.
  ghost predicate LinkInv(conns: seq<Conn>, bonds: seq<Bond>) {
    && (forall b :: 0 <= b < |bonds| ==> |bonds[b].owners| == |bonds[b].s.sh.log|)
    && (forall c :: 0 <= c < |conns| && conns[c].joined.Some? ==> PointsBack(bonds, c, conns[c].joined.value))
    && (forall b, p :: 0 <= b < |bonds| && 0 <= p < |bonds[b].owners| ==>
          bonds[b].owners[p] < |conns| && conns[bonds[b].owners[p]].joined == Some((b, p)))
  }

  predicate PointsBack(bonds: seq<Bond>, c: ConnId, joined: (BondId, PathId)) {
    joined.0 < |bonds| && joined.1 < |bonds[joined.0].owners| && bonds[joined.0].owners[joined.1] == c
  }

  ghost predicate ConnsInv(conns: seq<Conn>, bonds: seq<Bond>) {
    forall i :: 0 <= i < |conns| ==> ConnInv(conns[i], Events(bonds, conns[i]))
  }

  ghost predicate BondsInv(bonds: seq<Bond>) {
    forall b :: 0 <= b < |bonds| ==> BondInv(bonds[b].s)
  }

  ghost predicate LedgerInv(s: State, m: Limits) {
    && Counting(s.counts, Live(s.conns)) && WithinLimits(s.counts, m)
    && s.gauge == OpenCount(s.conns)
  }

  ghost predicate Inv(s: State, m: Limits) {
    LedgerInv(s, m) && LinkInv(s.conns, s.bonds) && ConnsInv(s.conns, s.bonds) && BondsInv(s.bonds)
  }

  // What a step does to the counts and the gauge is what it does to the lease.
  predicate Fits(counts: Counts, gauge: int, c: Conn, counts': Counts, gauge': int, c': Conn) {
    && c'.ip == c.ip
    && (if c'.used == c.used then counts' == counts else !c.used && counts' == ConnectionLimiter.Release(counts, c.ip))
    && gauge' == gauge - One(c) + One(c')
  }

  lemma FitsCounts(conns: seq<Conn>, i: ConnId, counts: Counts, counts': Counts, c': Conn, m: Limits)
    requires i < |conns| && Counting(counts, Live(conns)) && WithinLimits(counts, m) && c'.ip == conns[i].ip
    requires if c'.used == conns[i].used then counts' == counts
             else !conns[i].used && counts' == ConnectionLimiter.Release(counts, c'.ip)
    ensures Counting(counts', Live(conns[i := c'])) && WithinLimits(counts', m)
  {
    LiveUpdate(conns, i, c');
    var live, live' := Live(conns), Live(conns[i := c']);
    if c'.used == conns[i].used {
      Cancel(live', live, Bag(c'));
    } else {
      assert live == live' + multiset{c'.ip};
      assert live' == live - multiset{c'.ip};
      ReleaseCounts(counts, live, c'.ip, m);
    }
  }

  lemma FitsLedger(s: State, i: ConnId, counts': Counts, gauge': int, c': Conn, m: Limits)
    requires LedgerInv(s, m) && i < |s.conns| && Fits(s.counts, s.gauge, s.conns[i], counts', gauge', c')
    ensures LedgerInv(s.(counts := counts', gauge := gauge', conns := s.conns[i := c']), m)
  {
    FitsCounts(s.conns, i, s.counts, counts', c', m);
    OpenUpdate(s.conns, i, c');
  }

  // ---- Steps --------------------------------------------------------------

  lemma BondsKept(bonds: seq<Bond>, b: BondId, l: BR.Label, owners: seq<ConnId>)
    requires BondsInv(bonds) && b < |bonds|
    ensures BondsInv(bonds[b := Bond(BR.Step(bonds[b].s, l), owners)])
  {
    BondKept(bonds[b].s, l);
  }

  // A connection and the logs of a bond change, but not which is whose.
  lemma LinkKept(conns: seq<Conn>, bonds: seq<Bond>, c: ConnId, c': Conn, b: BondId, bond: Bond)
    requires LinkInv(conns, bonds) && c < |conns| && c'.joined == conns[c].joined
    requires b < |bonds| && bond.owners == bonds[b].owners && |bond.s.sh.log| == |bonds[b].s.sh.log|
    ensures LinkInv(conns[c := c'], bonds[b := bond])
  {
    var bonds' := bonds[b := bond];
    assert forall i :: 0 <= i < |bonds| ==> bonds'[i].owners == bonds[i].owners;
  }

  // A connection becomes the next path of a bond.
  lemma LinkJoined(conns: seq<Conn>, bonds: seq<Bond>, c: ConnId, c': Conn, b: BondId, bond: Bond)
    requires LinkInv(conns, bonds) && c < |conns| && b < |bonds| && conns[c].joined == None
    requires c'.joined == Some((b, |bonds[b].owners|))
    requires bond.owners == bonds[b].owners + [c] && |bond.s.sh.log| == |bonds[b].s.sh.log| + 1
    ensures LinkInv(conns[c := c'], bonds[b := bond])
  {
    var conns', bonds' := conns[c := c'], bonds[b := bond];
    forall i | 0 <= i < |conns| && conns'[i].joined.Some?
      ensures PointsBack(bonds', i, conns'[i].joined.value)
    {
      assert i == c || PointsBack(bonds, i, conns[i].joined.value);
    }
    forall i, p | 0 <= i < |bonds| && 0 <= p < |bonds'[i].owners|
      ensures bonds'[i].owners[p] < |conns| && conns'[bonds'[i].owners[p]].joined == Some((i, p))
    {
      if i != b || p < |bonds[b].owners| {
        assert conns[bonds[i].owners[p]].joined == Some((i, p));
      }
    }
  }

  // The other connections' paths see what they saw.
  lemma OthersKept(conns: seq<Conn>, bonds: seq<Bond>, c: ConnId, c': Conn, b: BondId, bond: Bond)
    requires LinkInv(conns, bonds) && ConnsInv(conns, bonds) && c < |conns| && b < |bonds|
    requires |bonds[b].s.sh.log| <= |bond.s.sh.log|
    requires forall p :: 0 <= p < |bonds[b].owners| && bonds[b].owners[p] != c ==>
               bond.s.sh.log[p] == bonds[b].s.sh.log[p]
    requires ConnInv(c', Events(bonds[b := bond], c'))
    ensures ConnsInv(conns[c := c'], bonds[b := bond])
  {
    var conns', bonds' := conns[c := c'], bonds[b := bond];
    forall i | 0 <= i < |conns|
      ensures ConnInv(conns'[i], Events(bonds', conns'[i]))
    {
      if i != c {
        assert conns[i].joined.Some? ==> PointsBack(bonds, i, conns[i].joined.value);
        assert Events(bonds', conns[i]) == Events(bonds, conns[i]);
      }
    }
  }

  lemma AcceptLinks(conns: seq<Conn>, bonds: seq<Bond>, c: Conn)
    requires LinkInv(conns, bonds) && ConnsInv(conns, bonds) && c.joined == None && ConnInv(c, 0)
    ensures LinkInv(conns + [c], bonds) && ConnsInv(conns + [c], bonds)
  {
  }

  lemma AcceptInv(s: State, ip: Option<string>, m: Limits)
    requires Inv(s, m)
    ensures Inv(Step(s, Accept(ip), m), m)
  {
    AdmitCounts(s.counts, Live(s.conns), ip, m);
    var s' := Step(s, Accept(ip), m);
    if s' != s {
      assert s'.conns[..|s.conns|] == s.conns;
      AcceptLinks(s.conns, s.bonds, s'.conns[|s.conns|]);
    }
  }

  lemma NewBondLinks(conns: seq<Conn>, bonds: seq<Bond>, bond: Bond)
    requires LinkInv(conns, bonds) && ConnsInv(conns, bonds) && bond.owners == [] && bond.s.sh.log == []
    ensures LinkInv(conns, bonds + [bond]) && ConnsInv(conns, bonds + [bond])
  {
    forall i | 0 <= i < |conns|
      ensures Events(bonds + [bond], conns[i]) == Events(bonds, conns[i])
      ensures conns[i].joined.Some? ==> PointsBack(bonds + [bond], i, conns[i].joined.value)
    {
      assert conns[i].joined.Some? ==> PointsBack(bonds, i, conns[i].joined.value);
    }
  }

  lemma NewBondInv(s: State, m: Limits)
    requires Inv(s, m)
    ensures Inv(Step(s, NewBond, m), m)
  {
    NewBondLinks(s.conns, s.bonds, Bond(BR.START, []));
    assert BondInv(BR.START);
  }

  lemma GoroutineFits(counts: Counts, gauge: int, c: Conn, outcome: Outcome, done: bool, events: nat)
    requires ConnInv(c, events)
    ensures var (counts', gauge', c') := GoroutineStep(counts, gauge, c, outcome, done);
            ConnInv(c', events) && c'.joined == c.joined && Fits(counts, gauge, c, counts', gauge', c')
  {
  }

  // A connection changes and its path, if any, does not.
  lemma ConnUpdate(s: State, i: ConnId, counts': Counts, gauge': int, c': Conn, m: Limits)
    requires Inv(s, m) && i < |s.conns| && c'.joined == s.conns[i].joined
    requires ConnInv(c', Events(s.bonds, c')) && Fits(s.counts, s.gauge, s.conns[i], counts', gauge', c')
    ensures Inv(s.(counts := counts', gauge := gauge', conns := s.conns[i := c']), m)
  {
    FitsLedger(s, i, counts', gauge', c', m);
    ConnLinks(s.conns, s.bonds, i, c');
  }

  lemma ConnLinks(conns: seq<Conn>, bonds: seq<Bond>, i: ConnId, c': Conn)
    requires LinkInv(conns, bonds) && ConnsInv(conns, bonds) && i < |conns|
    requires c'.joined == conns[i].joined && ConnInv(c', Events(bonds, c'))
    ensures LinkInv(conns[i := c'], bonds) && ConnsInv(conns[i := c'], bonds)
  {
  }

  lemma GoroutineInv(s: State, c: ConnId, outcome: Outcome, done: bool, m: Limits)
    requires Inv(s, m) && c < |s.conns|
    ensures var (counts', gauge', c') := GoroutineStep(s.counts, s.gauge, s.conns[c], outcome, done);
            Inv(s.(counts := counts', gauge := gauge', conns := s.conns[c := c']), m)
  {
    GoroutineFits(s.counts, s.gauge, s.conns[c], outcome, done, Events(s.bonds, s.conns[c]));
    var (counts', gauge', c') := GoroutineStep(s.counts, s.gauge, s.conns[c], outcome, done);
    ConnUpdate(s, c, counts', gauge', c', m);
  }

  lemma AddConnInv(s: State, c: ConnId, b: BondId, m: Limits)
    requires Inv(s, m) && c < |s.conns| && b < |s.bonds| && s.conns[c].g == InAdd
    ensures Inv(CallAddConn(s, c, b), m)
  {
    var s' := CallAddConn(s, c, b);
    var c', bond := s'.conns[c], s'.bonds[b];
    assert ConnInv(s.conns[c], Events(s.bonds, s.conns[c]));
    FitsLedger(s, c, s.counts, s.gauge, c', m);
    BondsKept(s.bonds, b, BR.CallAddConn, bond.owners);
    assert bond.s.sh.log == s.bonds[b].s.sh.log + [[]];
    LinkJoined(s.conns, s.bonds, c, c', b, bond);
    OthersKept(s.conns, s.bonds, c, c', b, bond);
  }

  lemma RetireFits(counts: Counts, gauge: int, c: Conn, n: nat)
    requires ConnInv(c, n) && c.joined.Some? && !c.lowering && n < 3
    ensures var (counts', c') := Retire(counts, c, n);
            ConnInv(c', n + 1) && c'.joined == c.joined && Fits(counts, gauge, c, counts', gauge, c')
  {
  }

  // A bond step that retires nothing.
  lemma QuietBondInv(s: State, b: BondId, l: BR.Label, m: Limits)
    requires Inv(s, m) && b < |s.bonds| && !l.CallAddConn? && Retiring(s.bonds[b].s, l) == None
    ensures Inv(BondStep(s, b, l), m)
  {
    var bond := BondStep(s, b, l).bonds[b];
    LogMoves(s.bonds[b].s, l);
    BondsKept(s.bonds, b, l, bond.owners);
    SameLogs(s.conns, s.bonds, b, bond);
  }

  lemma SameLogs(conns: seq<Conn>, bonds: seq<Bond>, b: BondId, bond: Bond)
    requires LinkInv(conns, bonds) && ConnsInv(conns, bonds) && b < |bonds|
    requires bond.owners == bonds[b].owners && bond.s.sh.log == bonds[b].s.sh.log
    ensures LinkInv(conns, bonds[b := bond]) && ConnsInv(conns, bonds[b := bond])
  {
    forall i | 0 <= i < |conns|
      ensures Events(bonds[b := bond], conns[i]) == Events(bonds, conns[i])
      ensures conns[i].joined.Some? ==> PointsBack(bonds[b := bond], i, conns[i].joined.value)
    {
      assert conns[i].joined.Some? ==> PointsBack(bonds, i, conns[i].joined.value);
    }
  }

  // RETIREMENT[n] happens to path p of bond b, and to the connection behind it.
  lemma RetireInv(s: State, b: BondId, bond: Bond, p: PathId, n: nat, m: Limits)
    requires LedgerInv(s, m) && LinkInv(s.conns, s.bonds) && ConnsInv(s.conns, s.bonds) && b < |s.bonds|
    requires p < |s.bonds[b].owners| && |s.bonds[b].s.sh.log[p]| == n < 3 && !s.conns[s.bonds[b].owners[p]].lowering
    requires bond.owners == s.bonds[b].owners && bond.s.sh.log == s.bonds[b].s.sh.log[p := BR.RETIREMENT[..n + 1]]
    ensures var c := bond.owners[p];
            var (counts', c') := Retire(s.counts, s.conns[c], n);
            var conns', bonds' := s.conns[c := c'], s.bonds[b := bond];
            LedgerInv(State(counts', s.gauge, conns', bonds'), m) && LinkInv(conns', bonds') && ConnsInv(conns', bonds')
  {
    var c := bond.owners[p];
    assert s.conns[c].joined == Some((b, p));
    assert ConnInv(s.conns[c], n);
    RetireFits(s.counts, s.gauge, s.conns[c], n);
    var (counts', c') := Retire(s.counts, s.conns[c], n);
    FitsLedger(s, c, counts', s.gauge, c', m);
    LinkKept(s.conns, s.bonds, c, c', b, bond);
    OthersKept(s.conns, s.bonds, c, c', b, bond);
  }

  lemma RetiringBondInv(s: State, b: BondId, l: BR.Label, m: Limits)
    requires Inv(s, m) && b < |s.bonds| && !l.CallAddConn? && Retiring(s.bonds[b].s, l).Some?
    ensures Inv(BondStep(s, b, l), m)
  {
    var s' := BondStep(s, b, l);
    var bond := Bond(BR.Step(s.bonds[b].s, l), s.bonds[b].owners);
    var (p, n) := Retiring(s.bonds[b].s, l).value;
    LogMoves(s.bonds[b].s, l);
    var c := bond.owners[p];
    assert s.conns[c].joined == Some((b, p));
    if !s.conns[c].lowering {
      RetireInv(s, b, bond, p, n, m);
      BondsKept(s.bonds, b, l, bond.owners);
    }
  }

  lemma LowerInv(s: State, c: ConnId, m: Limits)
    requires Inv(s, m) && c < |s.conns| && s.conns[c].lowering
    ensures Inv(s.(gauge := s.gauge - 1, conns := s.conns[c := s.conns[c].(lowering := false)]), m)
  {
    assert ConnInv(s.conns[c], Events(s.bonds, s.conns[c]));
    ConnUpdate(s, c, s.counts, s.gauge - 1, s.conns[c].(lowering := false), m);
  }

  lemma RunInv(s: State, c: ConnId, outcome: Outcome, m: Limits)
    requires Inv(s, m)
    ensures Inv(Step(s, RunGoroutine(c, outcome), m), m)
  {
    if c < |s.conns| {
      if s.conns[c].g.InAdd? && outcome.CallsAddConn? {
        if outcome.b < |s.bonds| {
          AddConnInv(s, c, outcome.b, m);
        }
      } else {
        GoroutineInv(s, c, outcome, AddConnDone(s, s.conns[c]), m);
      }
    }
  }

  lemma InvStep(s: State, l: Label, m: Limits)
    requires Inv(s, m)
    ensures Inv(Step(s, l, m), m)
  {
    match l
    case Accept(ip) => AcceptInv(s, ip, m);
    case NewBond => NewBondInv(s, m);
    case RunGoroutine(c, outcome) => RunInv(s, c, outcome, m);
    case RunBond(b, bl) =>
      if b < |s.bonds| && !bl.CallAddConn? {
        if Retiring(s.bonds[b].s, bl) == None {
          QuietBondInv(s, b, bl, m);
        } else {
          RetiringBondInv(s, b, bl, m);
        }
      }
    case LowerGauge(c) => if c < |s.conns| && s.conns[c].lowering { LowerInv(s, c, m); }
  }

  lemma {:induction false} ExecInv(ls: seq<Label>, m: Limits)
    ensures Inv(Exec(ls, m), m)
  {
    if ls != [] {
      ExecInv(ls[..|ls| - 1], m);
      InvStep(Exec(ls[..|ls| - 1], m), ls[|ls| - 1], m);
    }
  }

  // ---- Theorems -----------------------------------------------------------

  // In every reachable state the total is the number of live leases and the sum
  // of the per-address counts, within both limits, with no zero entries; and the
  // connection gauge is the number of connections between opened and closed.
  lemma LimiterCountsLiveLeases(ls: seq<Label>, m: Limits)
    ensures var s := Exec(ls, m);
            && s.counts.total == |Live(s.conns)| == Sum(s.counts.perIP)
            && s.counts.total <= m.maxTotal
            && (forall ip :: ip in s.counts.perIP ==> 0 < s.counts.perIP[ip] == Live(s.conns)[ip] <= m.maxPerIP)
            && s.gauge == OpenCount(s.conns)
  {
    ExecInv(ls, m);
    var s := Exec(ls, m);
    SumIsTotal(s.counts.perIP, Live(s.conns));
  }

  // However the goroutines and the threads of the bonds race, a lease is returned
  // at most once and a socket closed at most once: by the goroutine if the
  // connection never reached AddConn, and otherwise by the bond, as often as its
  // path was cleaned up and closed.
  lemma LeaseReturnedAtMostOnce(ls: seq<Label>, m: Limits, c: ConnId)
    requires c < |Exec(ls, m).conns|
    ensures var s := Exec(ls, m);
            var conn := s.conns[c];
            && conn.releases <= 1 && conn.closes <= 1
            && match conn.joined
               case None =>
                 && (conn.releases == 1 ==> conn.g in {Lowering, Gone})
                 && (conn.closes == 1 ==> conn.g in {Deferred, Lowering, Gone})
               case Some((b, p)) =>
                 && b < |s.bonds| && p < |s.bonds[b].s.sh.log|
                 && conn.closes == multiset(s.bonds[b].s.sh.log[p])[BR.ConnClosed]
                 && conn.releases == multiset(s.bonds[b].s.sh.log[p])[BR.CleanupRan]
  {
    ExecInv(ls, m);
    var s := Exec(ls, m);
    var conn := s.conns[c];
    assert ConnInv(conn, Events(s.bonds, conn));
    if conn.joined.Some? {
      var (b, p) := conn.joined.value;
      assert PointsBack(s.bonds, c, conn.joined.value);
      LogIsPrefix(s.bonds[b].s, p);
      PrefixCounts(s.bonds[b].s.sh.log[p]);
    }
  }

  lemma PrefixCounts(log: seq<BR.Event>)
    requires log <= BR.RETIREMENT
    ensures multiset(log)[BR.ConnClosed] == if |log| >= 1 then 1 else 0
    ensures multiset(log)[BR.CleanupRan] == if |log| >= 2 then 1 else 0
  {
    if |log| == 1 {
      assert log == [BR.ConnClosed];
    } else if |log| == 2 {
      assert log == [BR.ConnClosed, BR.CleanupRan];
    } else if |log| == 3 {
      assert log == BR.RETIREMENT;
    }
  }

  lemma LogIsPrefix(s: BR.State, p: PathId)
    requires BondInv(s) && p < |s.sh.log|
    ensures s.sh.log[p] <= BR.RETIREMENT
  {
    if p !in s.sh.b.paths && s.sh.log[p] != BR.RETIREMENT {
      var t :| 0 <= t < |s.threads| && BO.HoldsPath(s.threads[t], p);
      assert BO.ChargedOne(s.sh, s.threads[t]);
    }
  }

  // The goroutine gives up its flags exactly when add returned nil, and add returns
  // nil exactly when AddConn got the connection: once the goroutine is past add,
  // both flags say whether the connection became a path.
  lemma FlagsFollowHandOver(ls: seq<Label>, m: Limits, c: ConnId)
    requires c < |Exec(ls, m).conns|
    ensures var conn := Exec(ls, m).conns[c];
            && (conn.g == AddReturned(true) ==> conn.joined.Some?)
            && (conn.g in {AddReturned(false), Lowering} ==> conn.joined == None)
            && (conn.g in {Returning, Deferred, Lowering, Gone} ==> conn.owns == conn.release == conn.joined.None?)
  {
    ExecInv(ls, m);
    var s := Exec(ls, m);
    assert ConnInv(s.conns[c], Events(s.bonds, s.conns[c]));
  }

  // Once the goroutine is gone, and the connection's bond, if it joined one, has
  // been closed and all its threads have finished, the lease has been returned
  // exactly once, the socket closed exactly once and the gauge lowered.
  lemma LeaseReturnedExactlyOnce(ls: seq<Label>, m: Limits, c: ConnId)
    requires c < |Exec(ls, m).conns| && Exec(ls, m).conns[c].g == Gone
    requires var s := Exec(ls, m);
             s.conns[c].joined.Some? ==>
               s.conns[c].joined.value.0 < |s.bonds| && Over(s.bonds[s.conns[c].joined.value.0].s)
    ensures var conn := Exec(ls, m).conns[c]; conn.releases == 1 && conn.closes == 1 && conn.used && !Open(conn)
  {
    ExecInv(ls, m);
    var s := Exec(ls, m);
    var conn := s.conns[c];
    assert ConnInv(conn, Events(s.bonds, conn));
    if conn.joined.Some? {
      var (b, p) := conn.joined.value;
      assert PointsBack(s.bonds, c, conn.joined.value);
      OverMeansRetired(s.bonds[b].s, p);
    }
  }

  // How many steps the goroutine has still to take at most.
  function StepsLeft(g: Goroutine): nat {
    match g
    case Admitted => 9
    case Working => 8
    case InAdd => 7
    case InAddConn(_) => 6
    case AddReturned(_) => 5
    case Disowned => 4
    case Returning => 3
    case Deferred => 2
    case Lowering => 1
    case Gone => 0
  }

  // Every step of a goroutine brings it nearer to its end, unless it is inside
  // AddConn or its add call has not got any further, and takes it into add and AddConn
  // when it gets there.
  lemma GoroutineEnds(s: State, c: ConnId, outcome: Outcome, m: Limits)
    requires c < |s.conns| && s.conns[c].g != Gone && (s.conns[c].g.InAddConn? ==> AddConnDone(s, s.conns[c]))
    requires s.conns[c].g == InAdd ==> outcome.Fails? || (outcome.CallsAddConn? && outcome.b < |s.bonds|)
    ensures var s' := Step(s, RunGoroutine(c, outcome), m);
            c < |s'.conns| && StepsLeft(s'.conns[c].g) < StepsLeft(s.conns[c].g)
    ensures s.conns[c].g == Working && outcome.EntersAdd? ==> Step(s, RunGoroutine(c, outcome), m).conns[c].g == InAdd
    ensures s.conns[c].g == InAdd && outcome.CallsAddConn? ==>
              var conn, bond := Step(s, RunGoroutine(c, outcome), m).conns[c], s.bonds[outcome.b];
              conn.g == InAddConn(|bond.s.threads|) && conn.joined == Some((outcome.b, |bond.owners|))
  {
  }

  // In every run a connection gets in exactly if both limits leave room for it, and
  // then it starts with its lease and its socket its own; a bond starts empty.
  lemma AcceptsExactly(ls: seq<Label>, m: Limits, ip: Option<string>)
    ensures var s, s' := Exec(ls, m), Step(Exec(ls, m), Accept(ip), m);
            if ip.Some? && |Live(s.conns)| < m.maxTotal && Live(s.conns)[ip.value] < m.maxPerIP then
              s'.conns == s.conns + [Conn(ip.value, Admitted, true, true, None, false, false, 0, 0)]
            else s' == s
    ensures var s, s' := Exec(ls, m), Step(Exec(ls, m), NewBond, m); s'.bonds == s.bonds + [Bond(BR.START, [])]
  {
    ExecInv(ls, m);
    AdmitCounts(Exec(ls, m).counts, Live(Exec(ls, m).conns), ip, m);
  }

  // A cleanup that has released its lease lowers the gauge once.
  lemma GaugeIsLowered(s: State, c: ConnId, m: Limits)
    requires c < |s.conns|
    ensures var s' := Step(s, LowerGauge(c), m);
            c < |s'.conns| && !s'.conns[c].lowering && s'.gauge == s.gauge - if s.conns[c].lowering then 1 else 0
  {
  }

  ghost predicate Over(s: BR.State) {
    s.sh.once == BR.Finished && forall t :: 0 <= t < |s.threads| ==> s.threads[t] == BR.Stopped
  }

  lemma OverMeansRetired(s: BR.State, p: PathId)
    requires BondInv(s) && Over(s) && p < |s.sh.log|
    ensures s.sh.log[p] == BR.RETIREMENT
  {
    assert !BO.InSomeCharge(s, p);
  }
}
