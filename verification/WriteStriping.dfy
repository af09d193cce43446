// WriteTo: which path a packet goes out on.
module WriteStriping {
  import opened Prelude
  import opened Arith
  import opened RoundRobin
  import opened BondedConn
  import opened BondRaces

  // Panics is Go's run-time panic on an index out of range.
  datatype WriteResult = Wrote(n: nat) | ErrClosed | Panics

  // Go's conversion of a uint64 to int, and its remainder, which takes the sign
  // of the dividend.
  function ToInt(c: nat): int
    requires c < TWO_64
  {
    if c < TWO_63 then c else c - TWO_64
  }

  function Remainder(a: int, n: nat): int
    requires n > 0
  {
    if a >= 0 then a % n else -((-a) % n)
  }

  // The index WriteTo computes for its first attempt.
  function StartIndex(c: nat, n: nat): int
    requires c < TWO_64 && n > 0
  {
    Remainder(ToInt(c), n)
  }

  // Whether the first attempt at a snapshot of n paths indexes outside it.
  predicate OutOfRange(c: nat, n: nat)
    requires c < TWO_64 && n > 0
  {
    !(0 <= StartIndex(c, n) < n)
  }

  // The index is in range exactly while the counter fits in int, or where the
  // distance to the wrap is a multiple of the number of paths.
  lemma StartIndexInRange(c: nat, n: nat)
    requires c < TWO_64 && n > 0
    ensures OutOfRange(c, n) <==> c >= TWO_63 && (TWO_64 - c) % n != 0
  {
  }

  // WriteTo's first index: where the counter points, or, past the range of int,
  // at most 0.
  method FirstIndex(counter: nat, n: nat) returns (start: int)
    requires counter < TWO_64 && n > 0
    ensures counter < TWO_63 ==> start == counter % n
    ensures start < 0 <==> OutOfRange(counter, n)
    ensures counter >= TWO_63 ==> start <= 0
  {
    start := StartIndex(counter, n);
  }


  // The order in which a snapshot is tried, where the index is in range.
  function Order(paths: seq<PathId>, counter: nat): (order: seq<PathId>)
    ensures |order| == |paths|
  {
    if counter < TWO_63 then Rotate(paths, counter) else paths
  }

  // removed are the tried paths whose attempt failed for good, each once and in the
  // order tried; places says where.
  ghost predicate RemovedAt(tried: seq<PathId>, outcomes: seq<Outcome>, removed: seq<PathId>, places: seq<nat>) {
    && |tried| <= |outcomes| && |places| == |removed|
    && (forall k :: 0 <= k < |places| ==> places[k] < |tried| && removed[k] == tried[places[k]])
    && (forall j, k :: 0 <= j < k < |places| ==> places[j] < places[k])
    && (forall i :: 0 <= i < |tried| ==> (i in places <==> outcomes[i] == Permanent))
  }

  ghost predicate RemovedExactly(tried: seq<PathId>, outcomes: seq<Outcome>, removed: seq<PathId>) {
    exists places :: RemovedAt(tried, outcomes, removed, places)
  }

  // Over distinct paths: a tried path is removed exactly if its attempt failed for good.
  lemma RemovedMeansPermanent(tried: seq<PathId>, outcomes: seq<Outcome>, removed: seq<PathId>, i: nat)
    requires Distinct(tried) && i < |tried| <= |outcomes| && RemovedExactly(tried, outcomes, removed)
    ensures tried[i] in removed <==> outcomes[i] == Permanent
    ensures forall p :: p in removed ==> p in tried
  {
    var places: seq<nat> :| RemovedAt(tried, outcomes, removed, places);
    if outcomes[i] == Permanent {
      var k :| 0 <= k < |places| && places[k] == i;
      assert removed[k] == tried[i];
    }
  }

  // One more attempt that is not, or is, a failure for good.
  lemma RemovedStep(tried: seq<PathId>, outcomes: seq<Outcome>, removed: seq<PathId>, path: PathId)
    requires |tried| < |outcomes| && RemovedExactly(tried, outcomes, removed)
    ensures RemovedExactly(tried + [path], outcomes, removed + if outcomes[|tried|] == Permanent then [path] else [])
  {
    var places: seq<nat> :| RemovedAt(tried, outcomes, removed, places);
    var failed := outcomes[|tried|] == Permanent;
    var places' := places + if failed then [|tried|] else [];
    assert forall i :: i in places' <==> i in places || (failed && i == |tried|);
    assert RemovedAt(tried + [path], outcomes, removed + if failed then [path] else [], places');
  }

  // The attempts made on a snapshot: in the order `order`, up to the first success.
  ghost predicate Attempted(order: seq<PathId>, outcomes: seq<Outcome>, tried: seq<PathId>, sentOn: Option<PathId>)
    requires |outcomes| == |order|
  {
    && |tried| <= |order| && tried == order[..|tried|]
    && (forall i :: 0 <= i < |tried| - 1 ==> outcomes[i] != WriteOk)
    && (sentOn.Some? <==> tried != [] && outcomes[|tried| - 1] == WriteOk)
    && (sentOn.Some? ==> sentOn.value == tried[|tried| - 1])
    && (sentOn == None && tried != [] ==> tried == order)
  }

  // paths[(start + attempt) % len(paths)]
  method PathAt(paths: seq<PathId>, start: nat, attempt: nat) returns (path: PathId)
    requires attempt < |paths| && start < |paths|
    ensures path == Turned(paths, start)[attempt]
  {
    TurnedAt(paths, start, attempt);
    path := paths[(start + attempt) % |paths|];
  }

  // WriteTo's loop. outcomes[i] is the result of the i-th attempt.
  method Stripe(paths: seq<PathId>, start: nat, outcomes: seq<Outcome>)
    returns (tried: seq<PathId>, sentOn: Option<PathId>, removed: seq<PathId>)
    requires start < |paths| && |outcomes| == |paths|
    ensures tried != [] && Attempted(Turned(paths, start), outcomes, tried, sentOn)
    ensures RemovedExactly(tried, outcomes, removed)
  {
    ghost var order := Turned(paths, start);
    tried, sentOn, removed := [], None, [];
    assert RemovedAt([], outcomes, [], []);
    var attempt := 0;
    while attempt < |paths|
      invariant 0 <= attempt <= |paths|
      invariant |tried| == attempt && tried == order[..attempt]
      invariant forall i :: 0 <= i < attempt ==> outcomes[i] != WriteOk
      invariant sentOn == None && RemovedExactly(tried, outcomes, removed)
    {
      var path := PathAt(paths, start, attempt);
      RemovedStep(tried, outcomes, removed, path);
      tried := tried + [path];
      assert removed + [] == removed;
      if outcomes[attempt] == WriteOk {
        sentOn := Some(path);
        return;
      }
      if outcomes[attempt] == Permanent {
        removed := removed + [path];
      }
      attempt := attempt + 1;
    }
  }

  // WriteTo on a snapshot of the paths; closedBefore and closedAfter are what its
  // two tests of the closed channel see.
  method WriteTo(length: nat, closedBefore: bool, paths: seq<PathId>, counter: nat,
                 outcomes: seq<Outcome>, closedAfter: bool)
    returns (result: WriteResult, tried: seq<PathId>, sentOn: Option<PathId>, removed: seq<PathId>)
    requires |outcomes| == |paths|
    requires counter < TWO_64
    // empty input writes nothing; otherwise the full length or closed, or the index is out of range
    ensures length == 0 ==> result == Wrote(0)
    ensures result == Panics <==> length > 0 && !closedBefore && paths != [] && OutOfRange(counter, |paths|)
    ensures length > 0 && result != Panics ==>
              result == if closedBefore || (closedAfter && sentOn == None) then ErrClosed else Wrote(length)
    ensures length == 0 || closedBefore || result == Panics ==> tried == []
    // one success at most, on the last path tried, and every path tried without one
    ensures Attempted(Order(paths, counter), outcomes, tried, sentOn)
    ensures length > 0 && !closedBefore && result != Panics && sentOn == None ==> tried == Order(paths, counter)
    // only permanent failures take a path out
    ensures RemovedExactly(tried, outcomes, removed)
  {
    tried, sentOn, removed := [], None, [];
    assert RemovedAt([], outcomes, [], []);
    if length == 0 {
      return Wrote(0), tried, sentOn, removed;
    }
    if closedBefore {
      return ErrClosed, tried, sentOn, removed;
    }
    if |paths| != 0 {
      var start := FirstIndex(counter, |paths|);
      if start < 0 {
        return Panics, tried, sentOn, removed;
      }
      assert Turned(paths, start) == Order(paths, counter);
      tried, sentOn, removed := Stripe(paths, start, outcomes);
      if sentOn.Some? {
        return Wrote(length), tried, sentOn, removed;
      }
    }
    result := if closedAfter then ErrClosed else Wrote(length);
  }

  // ---- Striping over successive writes ------------------------------------

  // n consecutive counter values from c on all give an index in range.
  predicate CleanRound(c: nat, n: nat)
    requires n > 0
  {
    n == 1 || c + n <= TWO_63 || (c + n == TWO_63 + 1 && TWO_63 % n == 0)
  }

  lemma CleanIndex(c: nat, n: nat, i: nat)
    requires c < TWO_64 && i < n < TWO_63 && CleanRound(c, n)
    ensures !OutOfRange(After(c, i), n)
  {
    StartIndexInRange(After(c, i), n);
    if n == 1 {
      DivUnique(TWO_64 - After(c, i), 1, TWO_64 - After(c, i), 0);
    }
  }

  // Outside a clean round one of the values fails.
  lemma FoulIndex(c: nat, n: nat) returns (i: nat)
    requires c < TWO_64 && 0 < n < TWO_63 && !CleanRound(c, n)
    ensures i < n && OutOfRange(After(c, i), n)
  {
    i := if c >= TWO_63 then 0 else TWO_63 - c;
    StartIndexInRange(After(c, i), n);
    if !OutOfRange(After(c, i), n) {
      var k := TWO_64 - After(c, i);
      Predecessor(k, n);
      i := i + 1;
      StartIndexInRange(After(c, i), n);
    }
  }

  // The number before a multiple of n is not one.
  lemma Predecessor(k: nat, n: nat)
    requires n > 1 && k > 0 && k % n == 0
    ensures k - 1 > 0 && (k - 1) % n != 0
  {
    assert k >= n by {
      if k < n {
        DivUnique(k, n, 0, k);
      }
    }
    DivUnique(k - 1, n, k / n - 1, n - 1);
  }

  // In a clean round the first path tried is the one the counter points at.
  lemma CleanChoice(paths: seq<PathId>, c: nat, i: nat)
    requires c < TWO_64 && i < |paths| < TWO_63 && CleanRound(c, |paths|)
    ensures Order(paths, After(c, i))[0] == Choice(paths, c + i)
  {
    if After(c, i) < TWO_63 {
      RotateAt(paths, After(c, i), 0);
    }
    if |paths| == 1 {
      DivUnique(c + i, 1, c + i, 0);
      DivUnique(After(c, i), 1, After(c, i), 0);
    }
  }

  // One write on an open bond whose first attempt succeeds.
  method WriteFirst(length: nat, paths: seq<PathId>, counter: nat, outcomes: seq<Outcome>)
    returns (sentOn: Option<PathId>)
    requires length > 0 && paths != [] && counter < TWO_64
    requires |outcomes| == |paths| && outcomes[0] == WriteOk
    ensures sentOn == if OutOfRange(counter, |paths|) then None else Some(Order(paths, counter)[0])
  {
    var result, tried, path, removed := WriteTo(length, false, paths, counter, outcomes, false);
    if result == Panics {
      return None;
    }
    FirstTrySucceeds(Order(paths, counter), outcomes, tried, path);
    sentOn := path;
  }

  // The first k writes of a round all went out, and on these paths.
  ghost predicate WentOut(paths: seq<PathId>, c: nat, sent: seq<PathId>)
    requires paths != [] && c < TWO_64 && |sent| < TWO_63
  {
    forall i :: 0 <= i < |sent| ==> !OutOfRange(After(c, i), |paths|) && sent[i] == Order(paths, After(c, i))[0]
  }

  // As many successive writes as there are paths, each of whose first attempt
  // succeeds, on an open bond: they go out on every path exactly once, unless the
  // counter leaves the range of int on the way, and then one of them panics.
  method WriteRound(length: nat, paths: seq<PathId>, counter: nat, outcomes: seq<seq<Outcome>>)
    returns (sent: seq<PathId>, panicked: bool)
    requires length > 0 && 0 < |paths| < TWO_63 && counter < TWO_64
    requires |outcomes| == |paths|
    requires forall k :: 0 <= k < |outcomes| ==> |outcomes[k]| == |paths| && outcomes[k][0] == WriteOk
    ensures panicked <==> !CleanRound(counter, |paths|)
    ensures !panicked ==> sent == Rotate(paths, counter) && multiset(sent) == multiset(paths)
  {
    sent := [];
    var next := counter;
    while |sent| < |paths|
      invariant |sent| <= |paths| && next == After(counter, |sent|)
      invariant WentOut(paths, counter, sent)
    {
      AfterIsRepeatedIncrement(counter, |sent|);
      var path := WriteFirst(length, paths, next, outcomes[|sent|]);
      if path == None {
        PanicIsFoul(counter, |paths|, |sent|);
        return sent, true;
      }
      sent := sent + [path.value];
      next := Increment(next);
    }
    panicked := false;
    RoundSent(paths, counter, sent);
  }

  lemma PanicIsFoul(c: nat, n: nat, i: nat)
    requires c < TWO_64 && i < n < TWO_63 && OutOfRange(After(c, i), n)
    ensures !CleanRound(c, n)
  {
    if CleanRound(c, n) {
      CleanIndex(c, n, i);
    }
  }

  lemma FirstTrySucceeds(order: seq<PathId>, outcomes: seq<Outcome>, tried: seq<PathId>, sentOn: Option<PathId>)
    requires |outcomes| == |order| > 0 && outcomes[0] == WriteOk && Attempted(order, outcomes, tried, sentOn)
    requires sentOn == None ==> tried == order
    ensures sentOn == Some(order[0])
  {
  }

  lemma RoundSent(paths: seq<PathId>, c: nat, sent: seq<PathId>)
    requires 0 < |paths| == |sent| < TWO_63 && c < TWO_64
    requires WentOut(paths, c, sent)
    ensures CleanRound(c, |paths|) && sent == Rotate(paths, c) && multiset(sent) == multiset(paths)
  {
    if !CleanRound(c, |paths|) {
      var i := FoulIndex(c, |paths|);
      assert false;
    }
    forall i | 0 <= i < |paths|
      ensures sent[i] == Choices(paths, c)[i]
    {
      CleanChoice(paths, c, i);
    }
    EachPlaceOnce(paths, c);
  }
}
