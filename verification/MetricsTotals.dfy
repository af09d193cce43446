// metrics.Registry: per-path counters against process totals, with any number of
// observers in flight, one atomic add at a time. The laws are proved first of
// unbounded counters and then of the 64-bit words the program keeps.
module MetricsTotals {
  import opened Arith

  type PathId = nat

  datatype Kind =
    | ReadOperations | BytesRead | ReadErrors
    | WriteOperations | BytesWritten | WriteErrors
    | LatencySamples | LatencyTotal

  type Counters = Kind -> nat

  // One atomic add: to a path's counter or to the registry's.
  datatype Op = PathAdd(p: PathId, k: Kind, n: nat) | TotalAdd(k: Kind, n: nat)

  function Pair(p: PathId, k: Kind, n: nat): seq<Op> {
    [PathAdd(p, k, n), TotalAdd(k, n)]
  }

  // The part ObserveRead and ObserveWrite share: the operation, its bytes if any,
  // its error if any.
  function Traffic(p: PathId, ops: Kind, bytes: Kind, errors: Kind, n: nat, failed: bool): seq<Op> {
    Pair(p, ops, 1) + (if n > 0 then Pair(p, bytes, n) else []) + (if failed then Pair(p, errors, 1) else [])
  }

  // observeWriteLatency
  function Latency(p: PathId, ns: nat): seq<Op> {
    [PathAdd(p, LatencySamples, 1), PathAdd(p, LatencyTotal, ns),
     TotalAdd(LatencySamples, 1), TotalAdd(LatencyTotal, ns)]
  }

  // ObserveRead(n, err) as its sequence of adds.
  function ReadProgram(p: PathId, n: nat, failed: bool): seq<Op> {
    Traffic(p, ReadOperations, BytesRead, ReadErrors, n, failed)
  }

  // ObserveWrite(started, n, err); a sampled write also records its latency.
  function WriteProgram(p: PathId, n: nat, failed: bool, sampled: bool, latency: nat): seq<Op> {
    Traffic(p, WriteOperations, BytesWritten, WriteErrors, n, failed)
    + (if sampled then Latency(p, latency) else [])
  }

  // paths has every path ever opened, closed and forgotten ones included; pending
  // has what each observer still has to do.
  datatype State = State(paths: seq<Counters>, total: Counters, pending: seq<seq<Op>>)

  datatype Label =
    | OpenPath
    | ObserveRead(p: PathId, n: nat, failed: bool)
    | ObserveWrite(p: PathId, n: nat, failed: bool, sampled: bool, latency: nat)
    | Run(t: nat)

  function Zero(): Counters {
    (k: Kind) => 0
  }

  function Bump(c: Counters, k: Kind, n: nat): Counters {
    (x: Kind) => if x == k then c(x) + n else c(x)
  }

  const START := State([], Zero(), [])

  function Apply(s: State, op: Op): State {
    match op
    case PathAdd(p, k, n) => if p < |s.paths| then s.(paths := s.paths[p := Bump(s.paths[p], k, n)]) else s
    case TotalAdd(k, n) => s.(total := Bump(s.total, k, n))
  }

  function Step(s: State, l: Label): State {
    match l
    case OpenPath => s.(paths := s.paths + [Zero()])
    case ObserveRead(p, n, failed) =>
      if p < |s.paths| then s.(pending := s.pending + [ReadProgram(p, n, failed)]) else s
    case ObserveWrite(p, n, failed, sampled, latency) =>
      if p < |s.paths| then s.(pending := s.pending + [WriteProgram(p, n, failed, sampled, latency)]) else s
    case Run(t) =>
      if t < |s.pending| && s.pending[t] != [] then
        var s' := Apply(s, s.pending[t][0]);
        s'.(pending := s.pending[t := s.pending[t][1..]])
      else s
  }

  function Exec(ls: seq<Label>): State {
    if ls == [] then START else Step(Exec(ls[..|ls| - 1]), ls[|ls| - 1])
  }

  // ---- Sums ---------------------------------------------------------------

  function PathSum(paths: seq<Counters>, k: Kind): nat {
    if paths == [] then 0 else PathSum(paths[..|paths| - 1], k) + paths[|paths| - 1](k)
  }

  // What an operation will add to the paths' side, and to the totals' side.
  function PathPart(op: Op, k: Kind): nat {
    if op.PathAdd? && op.k == k then op.n else 0
  }

  function TotalPart(op: Op, k: Kind): nat {
    if op.TotalAdd? && op.k == k then op.n else 0
  }

  function PathDue(ops: seq<Op>, k: Kind): nat {
    if ops == [] then 0 else PathPart(ops[0], k) + PathDue(ops[1..], k)
  }

  function TotalDue(ops: seq<Op>, k: Kind): nat {
    if ops == [] then 0 else TotalPart(ops[0], k) + TotalDue(ops[1..], k)
  }

  // The totals' side minus the paths' side of what is still to be done.
  function Owed(pending: seq<seq<Op>>, k: Kind): int {
    if pending == [] then 0
    else Owed(pending[..|pending| - 1], k) + TotalDue(pending[|pending| - 1], k) - PathDue(pending[|pending| - 1], k)
  }

  lemma {:induction false} DueConcat(a: seq<Op>, b: seq<Op>, k: Kind)
    ensures PathDue(a + b, k) == PathDue(a, k) + PathDue(b, k)
    ensures TotalDue(a + b, k) == TotalDue(a, k) + TotalDue(b, k)
  {
    if a == [] {
      assert a + b == b;
    } else {
      DueConcat(a[1..], b, k);
      assert (a + b)[1..] == a[1..] + b;
    }
  }

  lemma {:induction false} PathSumUpdate(paths: seq<Counters>, p: PathId, c: Counters, k: Kind)
    requires p < |paths|
    ensures PathSum(paths[p := c], k) == PathSum(paths, k) - paths[p](k) + c(k)
  {
    var last := |paths| - 1;
    if p == last {
      assert paths[p := c][..last] == paths[..last];
    } else {
      PathSumUpdate(paths[..last], p, c, k);
      assert paths[p := c][..last] == paths[..last][p := c];
    }
  }

  lemma {:induction false} OwedUpdate(pending: seq<seq<Op>>, t: nat, ops: seq<Op>, k: Kind)
    requires t < |pending|
    ensures Owed(pending[t := ops], k) ==
            Owed(pending, k) - TotalDue(pending[t], k) + PathDue(pending[t], k) + TotalDue(ops, k) - PathDue(ops, k)
  {
    var last := |pending| - 1;
    if t == last {
      assert pending[t := ops][..last] == pending[..last];
    } else {
      OwedUpdate(pending[..last], t, ops, k);
      assert pending[t := ops][..last] == pending[..last][t := ops];
    }
  }

  // ---- Programs -----------------------------------------------------------

  ghost predicate Even(ops: seq<Op>) {
    forall k :: PathDue(ops, k) == TotalDue(ops, k)
  }

  // From any point of the program on, the totals' side has at least as much left
  // to do as the paths' side.
  ghost predicate Lagging(ops: seq<Op>) {
    (forall k :: PathDue(ops, k) <= TotalDue(ops, k)) && (ops == [] || Lagging(ops[1..]))
  }

  ghost predicate InBounds(ops: seq<Op>, n: nat) {
    forall i :: 0 <= i < |ops| && ops[i].PathAdd? ==> ops[i].p < n
  }

  lemma EvenConcat(a: seq<Op>, b: seq<Op>)
    requires Even(a) && Even(b)
    ensures Even(a + b)
  {
    forall k
      ensures PathDue(a + b, k) == TotalDue(a + b, k)
    {
      DueConcat(a, b, k);
    }
  }

  lemma {:induction false} LaggingConcat(a: seq<Op>, b: seq<Op>)
    requires Lagging(a) && Even(b) && Lagging(b)
    ensures Lagging(a + b)
  {
    if a == [] {
      assert a + b == b;
    } else {
      LaggingConcat(a[1..], b);
      assert (a + b)[1..] == a[1..] + b;
      forall k
        ensures PathDue(a + b, k) <= TotalDue(a + b, k)
      {
        DueConcat(a, b, k);
      }
    }
  }

  lemma DueCons(op: Op, rest: seq<Op>, k: Kind)
    ensures PathDue([op] + rest, k) == PathPart(op, k) + PathDue(rest, k)
    ensures TotalDue([op] + rest, k) == TotalPart(op, k) + TotalDue(rest, k)
  {
    assert ([op] + rest)[1..] == rest;
  }

  // Prefixing an operation that leaves the totals' side behind.
  lemma LaggingCons(op: Op, rest: seq<Op>)
    requires Lagging(rest)
    requires forall k :: PathPart(op, k) + PathDue(rest, k) <= TotalPart(op, k) + TotalDue(rest, k)
    ensures Lagging([op] + rest)
  {
    assert ([op] + rest)[1..] == rest;
    forall k
      ensures PathDue([op] + rest, k) <= TotalDue([op] + rest, k)
    {
      DueCons(op, rest, k);
    }
  }

  lemma Due2(a: Op, b: Op, k: Kind)
    ensures PathDue([a, b], k) == PathPart(a, k) + PathPart(b, k)
    ensures TotalDue([a, b], k) == TotalPart(a, k) + TotalPart(b, k)
  {
    assert [a, b] == [a] + ([b] + []);
    DueCons(a, [b] + [], k);
    DueCons(b, [], k);
  }

  // Two additions to the totals' side that the paths' side has already had.
  lemma LaggingTotals(c: Op, d: Op)
    requires c.TotalAdd? && d.TotalAdd?
    ensures Lagging([c, d]) && Lagging([d])
  {
    assert Lagging([]);
    assert [d] == [d] + [] && [c, d] == [c] + [d];
    LaggingCons(d, []);
    LaggingCons(c, [d]);
  }

  lemma PairProgram(p: PathId, k: Kind, n: nat)
    ensures Even(Pair(p, k, n)) && Lagging(Pair(p, k, n))
  {
    var a, b := PathAdd(p, k, n), TotalAdd(k, n);
    forall x
      ensures PathDue([a, b], x) == TotalDue([a, b], x)
    {
      Due2(a, b, x);
    }
    LaggingTotals(b, b);
    assert [a, b][1..] == [b];
  }

  lemma LatencyProgram(p: PathId, ns: nat)
    ensures Even(Latency(p, ns)) && Lagging(Latency(p, ns))
  {
    var a, b := PathAdd(p, LatencySamples, 1), PathAdd(p, LatencyTotal, ns);
    var c, d := TotalAdd(LatencySamples, 1), TotalAdd(LatencyTotal, ns);
    LaggingTotals(c, d);
    forall k
      ensures PathDue([c, d], k) == 0 && TotalDue([c, d], k) == TotalPart(c, k) + TotalPart(d, k)
    {
      Due2(c, d, k);
    }
    LaggingCons(b, [c, d]);
    forall k
      ensures PathDue([b] + [c, d], k) == PathPart(b, k)
      ensures TotalDue([b] + [c, d], k) == TotalPart(c, k) + TotalPart(d, k)
    {
      DueCons(b, [c, d], k);
    }
    LaggingCons(a, [b] + [c, d]);
    assert [a, b, c, d] == [a] + ([b] + [c, d]);
    forall k
      ensures PathDue([a, b, c, d], k) == TotalDue([a, b, c, d], k)
    {
      DueCons(a, [b] + [c, d], k);
    }
  }

  // An optional part keeps a program balanced.
  lemma Append(a: seq<Op>, b: seq<Op>)
    requires Even(a) && Lagging(a) && (b == [] || (Even(b) && Lagging(b)))
    ensures Even(a + b) && Lagging(a + b)
  {
    if b == [] {
      assert a + b == a;
    } else {
      EvenConcat(a, b);
      LaggingConcat(a, b);
    }
  }

  lemma TrafficEven(p: PathId, ops: Kind, bytes: Kind, errors: Kind, n: nat, failed: bool)
    ensures var program := Traffic(p, ops, bytes, errors, n, failed); Even(program) && Lagging(program)
  {
    PairProgram(p, ops, 1);
    PairProgram(p, bytes, n);
    PairProgram(p, errors, 1);
    var a := Pair(p, ops, 1);
    var b := if n > 0 then Pair(p, bytes, n) else [];
    Append(a, b);
    Append(a + b, if failed then Pair(p, errors, 1) else []);
  }

  lemma WriteProgramEven(p: PathId, n: nat, failed: bool, sampled: bool, latency: nat)
    ensures var program := WriteProgram(p, n, failed, sampled, latency); Even(program) && Lagging(program)
  {
    TrafficEven(p, WriteOperations, BytesWritten, WriteErrors, n, failed);
    LatencyProgram(p, latency);
    Append(Traffic(p, WriteOperations, BytesWritten, WriteErrors, n, failed),
           if sampled then Latency(p, latency) else []);
  }

  // ---- The invariant ------------------------------------------------------

  ghost predicate Law(s: State, k: Kind) {
    PathSum(s.paths, k) == s.total(k) + Owed(s.pending, k)
  }

  ghost predicate Inv(s: State) {
    && (forall k :: Law(s, k))
    && forall t :: 0 <= t < |s.pending| ==> Lagging(s.pending[t]) && InBounds(s.pending[t], |s.paths|)
  }

  lemma ApplyLaw(s: State, op: Op, k: Kind)
    requires op.PathAdd? ==> op.p < |s.paths|
    ensures PathSum(Apply(s, op).paths, k) == PathSum(s.paths, k) + PathPart(op, k)
    ensures Apply(s, op).total(k) == s.total(k) + TotalPart(op, k)
  {
    if op.PathAdd? {
      PathSumUpdate(s.paths, op.p, Bump(s.paths[op.p], op.k, op.n), k);
    }
  }

  lemma RunLaw(s: State, t: nat, k: Kind)
    requires Inv(s) && t < |s.pending| && s.pending[t] != []
    ensures Law(Step(s, Run(t)), k)
  {
    var ops := s.pending[t];
    assert InBounds(ops, |s.paths|);
    assert Law(s, k);
    ApplyLaw(s, ops[0], k);
    OwedUpdate(s.pending, t, ops[1..], k);
    assert PathDue(ops, k) == PathPart(ops[0], k) + PathDue(ops[1..], k);
    assert TotalDue(ops, k) == TotalPart(ops[0], k) + TotalDue(ops[1..], k);
  }

  lemma RunInv(s: State, t: nat)
    requires Inv(s)
    ensures Inv(Step(s, Run(t)))
  {
    if t < |s.pending| && s.pending[t] != [] {
      forall k
        ensures Law(Step(s, Run(t)), k)
      {
        RunLaw(s, t, k);
      }
      assert Lagging(s.pending[t][1..]);
    }
  }

  lemma CallInv(s: State, program: seq<Op>)
    requires Inv(s) && Even(program) && Lagging(program) && InBounds(program, |s.paths|)
    ensures Inv(s.(pending := s.pending + [program]))
  {
    var s' := s.(pending := s.pending + [program]);
    assert s'.pending[..|s.pending|] == s.pending;
    forall k
      ensures Law(s', k)
    {
      assert Law(s, k);
    }
  }

  lemma OpenInv(s: State)
    requires Inv(s)
    ensures Inv(Step(s, OpenPath))
  {
    var s' := Step(s, OpenPath);
    assert s'.paths[..|s.paths|] == s.paths;
    forall k
      ensures Law(s', k)
    {
      assert Law(s, k);
    }
  }

  lemma {:induction false} ExecInv(ls: seq<Label>)
    ensures Inv(Exec(ls))
  {
    if ls == [] {
      assert forall k :: Law(START, k);
    } else {
      var s, l := Exec(ls[..|ls| - 1]), ls[|ls| - 1];
      ExecInv(ls[..|ls| - 1]);
      match l
      case OpenPath => OpenInv(s);
      case ObserveRead(p, n, failed) =>
        TrafficEven(p, ReadOperations, BytesRead, ReadErrors, n, failed);
        if p < |s.paths| { CallInv(s, ReadProgram(p, n, failed)); }
      case ObserveWrite(p, n, failed, sampled, latency) =>
        WriteProgramEven(p, n, failed, sampled, latency);
        if p < |s.paths| { CallInv(s, WriteProgram(p, n, failed, sampled, latency)); }
      case Run(t) => RunInv(s, t);
    }
  }

  // ---- Theorems -----------------------------------------------------------

  lemma {:induction false} OwedIsNotNegative(pending: seq<seq<Op>>, k: Kind)
    requires forall t :: 0 <= t < |pending| ==> Lagging(pending[t])
    ensures Owed(pending, k) >= 0
  {
    if pending != [] {
      OwedIsNotNegative(pending[..|pending| - 1], k);
      assert Lagging(pending[|pending| - 1]);
    }
  }

  lemma {:induction false} NothingOwed(pending: seq<seq<Op>>, k: Kind)
    requires forall t :: 0 <= t < |pending| ==> pending[t] == []
    ensures Owed(pending, k) == 0
  {
    if pending != [] {
      NothingOwed(pending[..|pending| - 1], k);
    }
  }

  // In every interleaving of observers, each process total is the sum over all
  // paths ever opened, less what observers in flight still owe it; it never runs
  // ahead of the paths.
  lemma TotalsFollowPaths(ls: seq<Label>, k: Kind)
    ensures var s := Exec(ls);
            s.total(k) == PathSum(s.paths, k) - Owed(s.pending, k) <= PathSum(s.paths, k)
  {
    ExecInv(ls);
    assert Law(Exec(ls), k);
    OwedIsNotNegative(Exec(ls).pending, k);
  }

  lemma TotalsEqualPathsAtRest(ls: seq<Label>, k: Kind)
    requires forall t :: 0 <= t < |Exec(ls).pending| ==> Exec(ls).pending[t] == []
    ensures Exec(ls).total(k) == PathSum(Exec(ls).paths, k)
  {
    TotalsFollowPaths(ls, k);
    NothingOwed(Exec(ls).pending, k);
  }

  // ---- What was observed --------------------------------------------------

  function Flag(b: bool): nat {
    if b then 1 else 0
  }

  // What one observation says about each kind.
  function Amount(l: Label, k: Kind): nat {
    match l
    case ObserveRead(_, n, failed) =>
      (match k
       case ReadOperations => 1
       case BytesRead => n
       case ReadErrors => Flag(failed)
       case _ => 0)
    case ObserveWrite(_, n, failed, sampled, latency) =>
      (match k
       case WriteOperations => 1
       case BytesWritten => n
       case WriteErrors => Flag(failed)
       case LatencySamples => Flag(sampled)
       case LatencyTotal => if sampled then latency else 0
       case _ => 0)
    case _ => 0
  }

  // What a step observes, if it is an observation on an opened path.
  function StepAmount(s: State, l: Label, k: Kind): nat {
    if (l.ObserveRead? || l.ObserveWrite?) && l.p < |s.paths| then Amount(l, k) else 0
  }

  // What all observations of a run say together.
  function Observed(ls: seq<Label>, k: Kind): nat {
    if ls == [] then 0
    else Observed(ls[..|ls| - 1], k) + StepAmount(Exec(ls[..|ls| - 1]), ls[|ls| - 1], k)
  }

  function AllTotalDue(pending: seq<seq<Op>>, k: Kind): nat {
    if pending == [] then 0
    else AllTotalDue(pending[..|pending| - 1], k) + TotalDue(pending[|pending| - 1], k)
  }

  lemma {:induction false} AllTotalDueUpdate(pending: seq<seq<Op>>, t: nat, ops: seq<Op>, k: Kind)
    requires t < |pending|
    ensures AllTotalDue(pending[t := ops], k) == AllTotalDue(pending, k) - TotalDue(pending[t], k) + TotalDue(ops, k)
  {
    var last := |pending| - 1;
    if t == last {
      assert pending[t := ops][..last] == pending[..last];
    } else {
      AllTotalDueUpdate(pending[..last], t, ops, k);
      assert pending[t := ops][..last] == pending[..last][t := ops];
    }
  }

  lemma PairAmount(p: PathId, kind: Kind, n: nat, k: Kind)
    ensures TotalDue(Pair(p, kind, n), k) == if k == kind then n else 0
  {
    Due2(PathAdd(p, kind, n), TotalAdd(kind, n), k);
  }

  lemma TrafficAmount(p: PathId, ops: Kind, bytes: Kind, errors: Kind, n: nat, failed: bool, k: Kind)
    ensures TotalDue(Traffic(p, ops, bytes, errors, n, failed), k) ==
            (if k == ops then 1 else 0) + (if k == bytes then n else 0) + (if k == errors then Flag(failed) else 0)
  {
    var a := Pair(p, ops, 1);
    var b := if n > 0 then Pair(p, bytes, n) else [];
    PairAmount(p, ops, 1, k);
    PairAmount(p, bytes, n, k);
    PairAmount(p, errors, 1, k);
    DueConcat(a, b, k);
    DueConcat(a + b, if failed then Pair(p, errors, 1) else [], k);
  }

  lemma LatencyAmount(p: PathId, ns: nat, k: Kind)
    ensures TotalDue(Latency(p, ns), k) == if k == LatencySamples then 1 else if k == LatencyTotal then ns else 0
  {
    var a, b := PathAdd(p, LatencySamples, 1), PathAdd(p, LatencyTotal, ns);
    var c, d := TotalAdd(LatencySamples, 1), TotalAdd(LatencyTotal, ns);
    assert [a, b, c, d] == [a, b] + [c, d];
    DueConcat([a, b], [c, d], k);
    Due2(a, b, k);
    Due2(c, d, k);
  }

  lemma WriteAmount(p: PathId, n: nat, failed: bool, sampled: bool, latency: nat, k: Kind)
    ensures TotalDue(WriteProgram(p, n, failed, sampled, latency), k) ==
            Amount(ObserveWrite(p, n, failed, sampled, latency), k)
  {
    TrafficAmount(p, WriteOperations, BytesWritten, WriteErrors, n, failed, k);
    LatencyAmount(p, latency, k);
    DueConcat(Traffic(p, WriteOperations, BytesWritten, WriteErrors, n, failed),
              if sampled then Latency(p, latency) else [], k);
  }

  lemma CallDue(s: State, program: seq<Op>, k: Kind)
    ensures AllTotalDue(s.pending + [program], k) == AllTotalDue(s.pending, k) + TotalDue(program, k)
  {
    assert (s.pending + [program])[..|s.pending|] == s.pending;
  }

  lemma RunDue(s: State, t: nat, k: Kind)
    requires Inv(s) && t < |s.pending| && s.pending[t] != []
    ensures var s' := Step(s, Run(t));
            s'.total(k) + AllTotalDue(s'.pending, k) == s.total(k) + AllTotalDue(s.pending, k)
  {
    var ops := s.pending[t];
    assert InBounds(ops, |s.paths|);
    ApplyLaw(s, ops[0], k);
    AllTotalDueUpdate(s.pending, t, ops[1..], k);
    assert TotalDue(ops, k) == TotalPart(ops[0], k) + TotalDue(ops[1..], k);
  }

  lemma StepDue(s: State, l: Label, k: Kind)
    requires Inv(s)
    ensures var s' := Step(s, l);
            s'.total(k) + AllTotalDue(s'.pending, k) == s.total(k) + AllTotalDue(s.pending, k) + StepAmount(s, l, k)
  {
    match l
    case OpenPath =>
    case ObserveRead(p, n, failed) =>
      TrafficAmount(p, ReadOperations, BytesRead, ReadErrors, n, failed, k);
      CallDue(s, ReadProgram(p, n, failed), k);
    case ObserveWrite(p, n, failed, sampled, latency) =>
      WriteAmount(p, n, failed, sampled, latency, k);
      CallDue(s, WriteProgram(p, n, failed, sampled, latency), k);
    case Run(t) => if t < |s.pending| && s.pending[t] != [] { RunDue(s, t, k); }
  }

  // Each process total, plus what observers in flight still have to add to it, is
  // exactly what was observed over the whole run.
  lemma {:induction false} TotalsAreWhatWasObserved(ls: seq<Label>, k: Kind)
    ensures Exec(ls).total(k) + AllTotalDue(Exec(ls).pending, k) == Observed(ls, k)
  {
    if ls != [] {
      TotalsAreWhatWasObserved(ls[..|ls| - 1], k);
      ExecInv(ls[..|ls| - 1]);
      StepDue(Exec(ls[..|ls| - 1]), ls[|ls| - 1], k);
    }
  }

  // ---- 64-bit counters ----------------------------------------------------

  // The counters as uint64 words.
  datatype Words = Words(paths: seq<Counters>, total: Counters)

  function WrapAdd(c: Counters, k: Kind, n: nat): Counters {
    (x: Kind) => if x == k then (c(x) + n) % TWO_64 else c(x)
  }

  function ApplyWords(w: Words, op: Op): Words {
    match op
    case PathAdd(p, k, n) => if p < |w.paths| then w.(paths := w.paths[p := WrapAdd(w.paths[p], k, n)]) else w
    case TotalAdd(k, n) => w.(total := WrapAdd(w.total, k, n))
  }

  // A step's effect on the words; which add it performs does not depend on them.
  function StepWords(w: Words, s: State, l: Label): Words {
    match l
    case OpenPath => w.(paths := w.paths + [Zero()])
    case Run(t) => if t < |s.pending| && s.pending[t] != [] then ApplyWords(w, s.pending[t][0]) else w
    case _ => w
  }

  function ExecWords(ls: seq<Label>): Words {
    if ls == [] then Words([], Zero())
    else StepWords(ExecWords(ls[..|ls| - 1]), Exec(ls[..|ls| - 1]), ls[|ls| - 1])
  }

  ghost predicate Remainder(w: Counters, c: Counters) {
    forall k :: w(k) == c(k) % TWO_64
  }

  ghost predicate Remainders(w: Words, s: State) {
    && |w.paths| == |s.paths| && Remainder(w.total, s.total)
    && forall p :: 0 <= p < |w.paths| ==> Remainder(w.paths[p], s.paths[p])
  }

  lemma AddRemainder(w: Counters, c: Counters, k: Kind, n: nat)
    requires Remainder(w, c)
    ensures Remainder(WrapAdd(w, k, n), Bump(c, k, n))
  {
    ModAdd(c(k), n, TWO_64);
  }

  lemma ApplyRemainders(w: Words, s: State, op: Op)
    requires Remainders(w, s)
    ensures Remainders(ApplyWords(w, op), Apply(s, op))
  {
    if op.TotalAdd? {
      AddRemainder(w.total, s.total, op.k, op.n);
    } else if op.p < |w.paths| {
      AddRemainder(w.paths[op.p], s.paths[op.p], op.k, op.n);
    }
  }

  // The words are the counts modulo 2^64.
  lemma {:induction false} WordsAreRemainders(ls: seq<Label>)
    ensures Remainders(ExecWords(ls), Exec(ls))
  {
    if ls != [] {
      var s, l := Exec(ls[..|ls| - 1]), ls[|ls| - 1];
      WordsAreRemainders(ls[..|ls| - 1]);
      if l.Run? && l.t < |s.pending| && s.pending[l.t] != [] {
        ApplyRemainders(ExecWords(ls[..|ls| - 1]), s, s.pending[l.t][0]);
      }
    }
  }

  lemma {:induction false} SumRemainder(w: seq<Counters>, c: seq<Counters>, k: Kind)
    requires |w| == |c| && forall p :: 0 <= p < |w| ==> Remainder(w[p], c[p])
    ensures PathSum(w, k) % TWO_64 == PathSum(c, k) % TWO_64
  {
    if w != [] {
      var last := |w| - 1;
      SumRemainder(w[..last], c[..last], k);
      ModAdd(PathSum(w[..last], k), w[last](k), TWO_64);
      ModAdd(PathSum(c[..last], k), c[last](k), TWO_64);
      ModAdd(c[last](k), PathSum(c[..last], k) % TWO_64, TWO_64);
    }
  }

  lemma WordPlus(word: nat, count: nat, due: nat, sum: nat, m: nat)
    requires m > 0 && word == count % m && count + due == sum
    ensures (word + due) % m == sum % m
  {
    ModAdd(count, due, m);
  }

  // Modulo 2^64, each total and what observers in flight still owe it is the sum
  // over all paths ever opened, and each total and what they still have to add is
  // what was observed.
  ghost predicate WordLaw(w: Words, s: State, observed: nat, k: Kind) {
    && 0 <= Owed(s.pending, k)
    && (w.total(k) + Owed(s.pending, k)) % TWO_64 == PathSum(w.paths, k) % TWO_64
    && (w.total(k) + AllTotalDue(s.pending, k)) % TWO_64 == observed % TWO_64
  }

  // With no observation in flight, each total word is the sum of the path words
  // and the amount observed, both modulo 2^64; until 2^64 it is exactly that amount.
  ghost predicate WordLawAtRest(w: Words, observed: nat, k: Kind) {
    && w.total(k) == PathSum(w.paths, k) % TWO_64 == observed % TWO_64
    && (observed < TWO_64 ==> w.total(k) == observed)
  }

  lemma WordLawHolds(w: Words, s: State, observed: nat, k: Kind)
    requires Remainders(w, s) && s.total(k) == PathSum(s.paths, k) - Owed(s.pending, k) <= PathSum(s.paths, k)
    requires s.total(k) + AllTotalDue(s.pending, k) == observed
    ensures WordLaw(w, s, observed, k)
  {
    SumRemainder(w.paths, s.paths, k);
    WordPlus(w.total(k), s.total(k), Owed(s.pending, k), PathSum(s.paths, k), TWO_64);
    WordPlus(w.total(k), s.total(k), AllTotalDue(s.pending, k), observed, TWO_64);
  }

  lemma WordLawRests(w: Words, s: State, observed: nat, k: Kind)
    requires WordLaw(w, s, observed, k) && w.total(k) < TWO_64
    requires forall t :: 0 <= t < |s.pending| ==> s.pending[t] == []
    ensures WordLawAtRest(w, observed, k)
  {
    NothingOwed(s.pending, k);
    NothingDue(s.pending, k);
  }

  // The laws as the program's words keep them, in every interleaving of observers.
  lemma WordTotalsFollowPaths(ls: seq<Label>, k: Kind)
    ensures WordLaw(ExecWords(ls), Exec(ls), Observed(ls, k), k)
  {
    WordsAreRemainders(ls);
    TotalsFollowPaths(ls, k);
    TotalsAreWhatWasObserved(ls, k);
    WordLawHolds(ExecWords(ls), Exec(ls), Observed(ls, k), k);
  }

  lemma WordTotalsAtRest(ls: seq<Label>, k: Kind)
    requires forall t :: 0 <= t < |Exec(ls).pending| ==> Exec(ls).pending[t] == []
    ensures WordLawAtRest(ExecWords(ls), Observed(ls, k), k)
  {
    WordsAreRemainders(ls);
    WordTotalsFollowPaths(ls, k);
    WordLawRests(ExecWords(ls), Exec(ls), Observed(ls, k), k);
  }

  lemma {:induction false} NothingDue(pending: seq<seq<Op>>, k: Kind)
    requires forall t :: 0 <= t < |pending| ==> pending[t] == []
    ensures AllTotalDue(pending, k) == 0
  {
    if pending != [] {
      NothingDue(pending[..|pending| - 1], k);
    }
  }

  // ---- Path by path -------------------------------------------------------

  // What operations will still add to path p's own counter.
  function DueOn(ops: seq<Op>, p: PathId, k: Kind): nat {
    if ops == [] then 0
    else (if ops[0].PathAdd? && ops[0].p == p then PathPart(ops[0], k) else 0) + DueOn(ops[1..], p, k)
  }

  function AllDueOn(pending: seq<seq<Op>>, p: PathId, k: Kind): nat {
    if pending == [] then 0
    else AllDueOn(pending[..|pending| - 1], p, k) + DueOn(pending[|pending| - 1], p, k)
  }

  // What all observations of a run on path p say together.
  function ObservedOn(ls: seq<Label>, p: PathId, k: Kind): nat {
    if ls == [] then 0
    else ObservedOn(ls[..|ls| - 1], p, k) + AmountOn(Exec(ls[..|ls| - 1]), ls[|ls| - 1], p, k)
  }

  // A program that touches only path q's counters.
  ghost predicate OnlyOn(ops: seq<Op>, q: PathId) {
    forall i :: 0 <= i < |ops| && ops[i].PathAdd? ==> ops[i].p == q
  }

  lemma {:induction false} DueOnOnly(ops: seq<Op>, q: PathId, p: PathId, k: Kind)
    requires OnlyOn(ops, q)
    ensures DueOn(ops, p, k) == if p == q then PathDue(ops, k) else 0
  {
    if ops != [] {
      DueOnOnly(ops[1..], q, p, k);
    }
  }

  lemma {:induction false} AllDueOnUpdate(pending: seq<seq<Op>>, t: nat, ops: seq<Op>, p: PathId, k: Kind)
    requires t < |pending|
    ensures AllDueOn(pending[t := ops], p, k) == AllDueOn(pending, p, k) - DueOn(pending[t], p, k) + DueOn(ops, p, k)
  {
    var last := |pending| - 1;
    if t == last {
      assert pending[t := ops][..last] == pending[..last];
    } else {
      AllDueOnUpdate(pending[..last], t, ops, p, k);
      assert pending[t := ops][..last] == pending[..last][t := ops];
    }
  }

  lemma CallDueOn(s: State, program: seq<Op>, p: PathId, k: Kind)
    ensures AllDueOn(s.pending + [program], p, k) == AllDueOn(s.pending, p, k) + DueOn(program, p, k)
  {
    assert (s.pending + [program])[..|s.pending|] == s.pending;
  }

  // An observation on path q is due on that path, in the amounts observed.
  lemma ReadDueOn(q: PathId, n: nat, failed: bool, p: PathId, k: Kind)
    ensures DueOn(ReadProgram(q, n, failed), p, k) == if p == q then Amount(ObserveRead(q, n, failed), k) else 0
  {
    TrafficEven(q, ReadOperations, BytesRead, ReadErrors, n, failed);
    TrafficAmount(q, ReadOperations, BytesRead, ReadErrors, n, failed, k);
    DueOnOnly(ReadProgram(q, n, failed), q, p, k);
  }

  lemma WriteDueOn(q: PathId, n: nat, failed: bool, sampled: bool, latency: nat, p: PathId, k: Kind)
    ensures DueOn(WriteProgram(q, n, failed, sampled, latency), p, k) ==
            if p == q then Amount(ObserveWrite(q, n, failed, sampled, latency), k) else 0
  {
    WriteProgramEven(q, n, failed, sampled, latency);
    WriteAmount(q, n, failed, sampled, latency, k);
    DueOnOnly(WriteProgram(q, n, failed, sampled, latency), q, p, k);
  }

  ghost predicate PathLaw(s: State, observed: nat, p: PathId, k: Kind) {
    if p < |s.paths| then s.paths[p](k) + AllDueOn(s.pending, p, k) == observed
    else observed == 0 && AllDueOn(s.pending, p, k) == 0
  }

  lemma RunPathLaw(s: State, t: nat, observed: nat, p: PathId, k: Kind)
    requires Inv(s) && PathLaw(s, observed, p, k)
    ensures PathLaw(Step(s, Run(t)), observed, p, k)
  {
    if t < |s.pending| && s.pending[t] != [] {
      var ops := s.pending[t];
      assert InBounds(ops, |s.paths|);
      AllDueOnUpdate(s.pending, t, ops[1..], p, k);
    }
  }

  // What this step observes on path p.
  function AmountOn(s: State, l: Label, p: PathId, k: Kind): nat {
    if (l.ObserveRead? || l.ObserveWrite?) && l.p == p < |s.paths| then Amount(l, k) else 0
  }

  lemma CallPathLaw(s: State, program: seq<Op>, observed: nat, amount: nat, p: PathId, k: Kind)
    requires PathLaw(s, observed, p, k) && DueOn(program, p, k) == amount && (p >= |s.paths| ==> amount == 0)
    ensures PathLaw(s.(pending := s.pending + [program]), observed + amount, p, k)
  {
    CallDueOn(s, program, p, k);
  }

  lemma StepPathLaw(s: State, l: Label, observed: nat, p: PathId, k: Kind)
    requires Inv(s) && PathLaw(s, observed, p, k)
    ensures PathLaw(Step(s, l), observed + AmountOn(s, l, p, k), p, k)
  {
    match l
    case OpenPath =>
    case ObserveRead(q, n, failed) =>
      ReadDueOn(q, n, failed, p, k);
      if q < |s.paths| { CallPathLaw(s, ReadProgram(q, n, failed), observed, AmountOn(s, l, p, k), p, k); }
    case ObserveWrite(q, n, failed, sampled, latency) =>
      WriteDueOn(q, n, failed, sampled, latency, p, k);
      if q < |s.paths| {
        CallPathLaw(s, WriteProgram(q, n, failed, sampled, latency), observed, AmountOn(s, l, p, k), p, k);
      }
    case Run(t) => RunPathLaw(s, t, observed, p, k);
  }

  // Each path's own counter, plus what observers in flight still have to add to it,
  // is exactly what was observed on that path.
  lemma {:induction false} PathsAreWhatWasObserved(ls: seq<Label>, p: PathId, k: Kind)
    ensures PathLaw(Exec(ls), ObservedOn(ls, p, k), p, k)
  {
    if ls != [] {
      PathsAreWhatWasObserved(ls[..|ls| - 1], p, k);
      ExecInv(ls[..|ls| - 1]);
      StepPathLaw(Exec(ls[..|ls| - 1]), ls[|ls| - 1], ObservedOn(ls[..|ls| - 1], p, k), p, k);
    }
  }
}
