// sessionPool: least-loaded ordering of the open sessions, rotating among equals.
module SessionPool {
  import opened Prelude
  import opened Arith
  import opened RoundRobin

  type SessionId = nat

  // The loads and the open sessions at the moment of a call.
  type Load = SessionId -> nat

  function OpenOnly(s: seq<SessionId>, open: set<SessionId>): seq<SessionId> {
    if s == [] then []
    else OpenOnly(s[..|s| - 1], open) + if s[|s| - 1] in open then [s[|s| - 1]] else []
  }

  // The entries with load v, in order.
  function WithLoad(s: seq<SessionId>, load: Load, v: nat): seq<SessionId> {
    if s == [] then [] else (if load(s[0]) == v then [s[0]] else []) + WithLoad(s[1..], load, v)
  }

  ghost predicate ByLoad(s: seq<SessionId>, load: Load) {
    forall i, j :: 0 <= i < j < |s| ==> load(s[i]) <= load(s[j])
  }

  // r is s stably sorted by load: ordered, and among equal loads the entries of s
  // in the order of s.
  ghost predicate StablySorted(r: seq<SessionId>, s: seq<SessionId>, load: Load) {
    ByLoad(r, load) && forall v :: WithLoad(r, load, v) == WithLoad(s, load, v)
  }

  lemma {:induction false} WithLoadConcat(a: seq<SessionId>, b: seq<SessionId>, load: Load, v: nat)
    ensures WithLoad(a + b, load, v) == WithLoad(a, load, v) + WithLoad(b, load, v)
  {
    if a == [] {
      assert a + b == b;
    } else {
      WithLoadConcat(a[1..], b, load, v);
      assert (a + b)[1..] == a[1..] + b;
      Assoc(if load(a[0]) == v then [a[0]] else [], WithLoad(a[1..], load, v), WithLoad(b, load, v));
    }
  }

  lemma {:induction false} WithLoadNone(s: seq<SessionId>, load: Load, v: nat)
    requires forall i :: 0 <= i < |s| ==> load(s[i]) != v
    ensures WithLoad(s, load, v) == []
  {
    if s != [] {
      WithLoadNone(s[1..], load, v);
    }
  }

  // x goes behind everything of its load or less.
  lemma InsertStable(r: seq<SessionId>, k: nat, x: SessionId, s: seq<SessionId>, load: Load)
    requires k <= |r| && StablySorted(r, s, load)
    requires forall i :: 0 <= i < k ==> load(r[i]) <= load(x)
    requires forall i :: k <= i < |r| ==> load(x) < load(r[i])
    ensures StablySorted(Inserted(r, k, x), s + [x], load)
  {
    InsertOrdered(r, k, x, load);
    forall v
      ensures WithLoad(Inserted(r, k, x), load, v) == WithLoad(s + [x], load, v)
    {
      WithLoadConcat(r[..k] + [x], r[k..], load, v);
      WithLoadConcat(r[..k], [x], load, v);
      WithLoadConcat(r[..k], r[k..], load, v);
      WithLoadConcat(s, [x], load, v);
      assert r == r[..k] + r[k..];
      if v == load(x) {
        WithLoadNone(r[k..], load, v);
      }
    }
  }

  lemma InsertOrdered(r: seq<SessionId>, k: nat, x: SessionId, load: Load)
    requires k <= |r| && ByLoad(r, load)
    requires forall i :: 0 <= i < k ==> load(r[i]) <= load(x)
    requires forall i :: k <= i < |r| ==> load(x) < load(r[i])
    ensures ByLoad(Inserted(r, k, x), load)
  {
    var q := Inserted(r, k, x);
    forall i, j | 0 <= i < j < |q|
      ensures load(q[i]) <= load(q[j])
    {
      assert load(InsertedAt(r, k, x, i)) <= load(InsertedAt(r, k, x, j));
    }
  }

  // sort.SliceStable
  method StableSort(s: seq<SessionId>, load: Load) returns (r: seq<SessionId>)
    ensures StablySorted(r, s, load)
  {
    r := [];
    var n := 0;
    while n < |s|
      invariant 0 <= n <= |s|
      invariant StablySorted(r, s[..n], load)
    {
      var x := s[n];
      var k := 0;
      while k < |r| && load(r[k]) <= load(x)
        invariant 0 <= k <= |r|
        invariant forall i :: 0 <= i < k ==> load(r[i]) <= load(x)
      {
        k := k + 1;
      }
      InsertStable(r, k, x, s[..n], load);
      assert s[..n] + [x] == s[..n + 1];
      r := Inserted(r, k, x);
      n := n + 1;
    }
    assert s[..n] == s;
  }

  class Pool {
    var sessions: seq<SessionId>
    var counter: nat
    var gauge: int

    constructor ()
      ensures sessions == [] && counter == 0 && gauge == 0
    {
      sessions, counter, gauge := [], 0, 0;
    }

    method Add(s: SessionId)
      modifies this`sessions, this`gauge
      ensures sessions == old(sessions) + [s] && gauge == old(gauge) + 1
    {
      sessions := sessions + [s];
      gauge := gauge + 1;
    }

    // Takes the first occurrence out; the gauge follows the length.
    method Remove(s: SessionId)
      modifies this`sessions, this`gauge
      ensures sessions == Without(old(sessions), s)
      ensures gauge - |sessions| == old(gauge) - |old(sessions)|
    {
      var i := 0;
      while i < |sessions|
        invariant 0 <= i <= |sessions|
        invariant sessions == old(sessions) && gauge == old(gauge)
        invariant s !in sessions[..i]
      {
        if sessions[i] == s {
          WithoutAt(sessions, i, s);
          sessions := sessions[..i] + sessions[i + 1..];
          gauge := gauge - 1;
          return;
        }
        i := i + 1;
      }
      WithoutAbsent(sessions, s);
    }

    // The open sessions, least loaded first, equals in pool order from the place
    // the counter points at.
    method Candidates(load: Load, open: set<SessionId>) returns (r: seq<SessionId>)
      modifies this`counter
      ensures counter == if sessions == [] then old(counter) else Increment(old(counter))
      ensures StablySorted(r, OpenOnly(Rotate(sessions, counter), open), load)
    {
      if |sessions| == 0 {
        return [];
      }
      counter := Increment(counter);
      var candidates := OpenFrom(sessions, counter, open);
      r := StableSort(candidates, load);
    }
  }

  // Adding a session and later removing it undoes the addition, whatever was added
  // in between: the others stay, in order.
  lemma RemoveUndoesAdd(before: seq<SessionId>, s: SessionId, after: seq<SessionId>)
    requires s !in before
    ensures Without(before + [s] + after, s) == before + after
  {
    var all := before + [s] + after;
    assert all[..|before|] == before && all[|before| + 1..] == after;
    WithoutAt(all, |before|, s);
  }

  method OpenFrom(sessions: seq<SessionId>, counter: nat, open: set<SessionId>) returns (r: seq<SessionId>)
    requires sessions != []
    ensures r == OpenOnly(Rotate(sessions, counter), open)
  {
    var n := |sessions|;
    var start := counter % n;
    ghost var rotated := Rotate(sessions, counter);
    RotatePermutes(sessions, counter);
    r := [];
    var i := 0;
    while i < n
      invariant 0 <= i <= n
      invariant r == OpenOnly(rotated[..i], open)
    {
      RotateAt(sessions, counter, i);
      var session := sessions[(start + i) % n];
      assert rotated[..i + 1][..i] == rotated[..i];
      if session in open {
        r := r + [session];
      }
      i := i + 1;
    }
    assert rotated[..i] == rotated;
  }

  // ---- What the order amounts to ------------------------------------------

  // A stable sort of s has exactly the entries of s.
  lemma {:induction false} WithLoadCount(s: seq<SessionId>, load: Load, x: SessionId)
    ensures multiset(WithLoad(s, load, load(x)))[x] == multiset(s)[x]
  {
    if s != [] {
      WithLoadCount(s[1..], load, x);
      var head := if load(s[0]) == load(x) then [s[0]] else [];
      assert s == [s[0]] + s[1..];
      assert multiset(WithLoad(s, load, load(x))) == multiset(head) + multiset(WithLoad(s[1..], load, load(x)));
    }
  }

  lemma StableSortPermutes(r: seq<SessionId>, s: seq<SessionId>, load: Load)
    requires StablySorted(r, s, load)
    ensures multiset(r) == multiset(s)
  {
    forall x: SessionId
      ensures multiset(r)[x] == multiset(s)[x]
    {
      WithLoadCount(r, load, x);
      WithLoadCount(s, load, x);
      assert WithLoad(r, load, load(x)) == WithLoad(s, load, load(x));
    }
  }

  lemma {:induction false} WithLoadMember(s: seq<SessionId>, load: Load, v: nat, x: SessionId)
    ensures x in WithLoad(s, load, v) <==> x in s && load(x) == v
  {
    if s != [] {
      WithLoadMember(s[1..], load, v, x);
      assert s == [s[0]] + s[1..];
    }
  }

  // Dropping the common first entry leaves two stable sorts of the same list.
  lemma StableTail(a: seq<SessionId>, b: seq<SessionId>, load: Load)
    requires a != [] && b != [] && a[0] == b[0] && StablySorted(a, b, load)
    ensures StablySorted(a[1..], b[1..], load)
  {
    forall v
      ensures WithLoad(a[1..], load, v) == WithLoad(b[1..], load, v)
    {
      var head := if load(a[0]) == v then [a[0]] else [];
      assert WithLoad(a, load, v) == head + WithLoad(a[1..], load, v);
      assert WithLoad(b, load, v) == head + WithLoad(b[1..], load, v);
      assert WithLoad(a[1..], load, v) == WithLoad(a, load, v)[|head|..];
    }
  }

  // The order is determined: any two stable sorts of one list are equal.
  lemma {:induction false} StableSortUnique(a: seq<SessionId>, b: seq<SessionId>, load: Load)
    requires ByLoad(b, load) && StablySorted(a, b, load)
    ensures a == b
  {
    if a == [] || b == [] {
      StableSortPermutes(a, b, load);
      assert |multiset(a)| == |multiset(b)|;
    } else {
      StableHead(a, b, load);
      StableTail(a, b, load);
      StableSortUnique(a[1..], b[1..], load);
      assert a == [a[0]] + a[1..] && b == [b[0]] + b[1..];
    }
  }

  lemma StableHead(a: seq<SessionId>, b: seq<SessionId>, load: Load)
    requires a != [] && b != [] && ByLoad(b, load) && StablySorted(a, b, load)
    ensures a[0] == b[0]
  {
    var v, w := load(a[0]), load(b[0]);
    WithLoadMember(a, load, v, a[0]);
    WithLoadMember(b, load, v, a[0]);
    WithLoadMember(a, load, w, b[0]);
    WithLoadMember(b, load, w, b[0]);
    assert WithLoad(a, load, v) == WithLoad(b, load, v) && WithLoad(a, load, w) == WithLoad(b, load, w);
    assert a[0] in b && b[0] in a;
    assert v == w;
    assert WithLoad(a, load, v)[0] == a[0] && WithLoad(b, load, v)[0] == b[0];
  }

  lemma {:induction false} OpenOnlyMembers(s: seq<SessionId>, open: set<SessionId>, x: SessionId)
    ensures multiset(OpenOnly(s, open))[x] == if x in open then multiset(s)[x] else 0
  {
    if s != [] {
      OpenOnlyMembers(s[..|s| - 1], open, x);
      var last := if s[|s| - 1] in open then [s[|s| - 1]] else [];
      assert s == s[..|s| - 1] + [s[|s| - 1]];
      assert multiset(OpenOnly(s, open)) == multiset(OpenOnly(s[..|s| - 1], open)) + multiset(last);
    }
  }

  // What Candidates returns has each open session of the pool exactly as often as
  // the pool does, and no closed one.
  lemma CandidatesAreTheOpenSessions(r: seq<SessionId>, sessions: seq<SessionId>, counter: nat,
                                     load: Load, open: set<SessionId>, x: SessionId)
    requires StablySorted(r, OpenOnly(Rotate(sessions, counter), open), load)
    ensures multiset(r)[x] == if x in open then multiset(sessions)[x] else 0
  {
    StableSortPermutes(r, OpenOnly(Rotate(sessions, counter), open), load);
    OpenOnlyMembers(Rotate(sessions, counter), open, x);
    RotatePermutes(sessions, counter);
  }

  // ---- Rotation among equals ----------------------------------------------

  lemma {:induction false} OpenOnlyAll(s: seq<SessionId>, open: set<SessionId>)
    requires forall i :: 0 <= i < |s| ==> s[i] in open
    ensures OpenOnly(s, open) == s
  {
    if s != [] {
      OpenOnlyAll(s[..|s| - 1], open);
    }
  }

  // With all sessions open and equally loaded, Candidates returns the pool rotated
  // to the counter.
  lemma EqualLoadsRotate(r: seq<SessionId>, sessions: seq<SessionId>, counter: nat, load: Load, open: set<SessionId>)
    requires sessions != [] && StablySorted(r, OpenOnly(Rotate(sessions, counter), open), load)
    requires forall i :: 0 <= i < |sessions| ==> sessions[i] in open && load(sessions[i]) == load(sessions[0])
    ensures r == Rotate(sessions, counter) && r != [] && r[0] == Choice(sessions, counter)
  {
    var base := Rotate(sessions, counter);
    RotatePermutes(sessions, counter);
    forall i | 0 <= i < |base|
      ensures base[i] in open && load(base[i]) == load(sessions[0])
    {
      RotateAt(sessions, counter, i);
    }
    OpenOnlyAll(base, open);
    StableSortUnique(r, base, load);
    RotateAt(sessions, counter, 0);
  }

  // Who comes first in as many successive calls as there are sessions, all open
  // and equally loaded.
  function Firsts(sessions: seq<SessionId>, c: nat): seq<SessionId>
    requires sessions != [] && c < TWO_64 && |sessions| <= TWO_64
  {
    seq<SessionId>(|sessions|, i requires 0 <= i < |sessions| => Choice(sessions, After(c, i + 1)))
  }

  // The counter wraps between two of those calls, at a point that is not a
  // multiple of the pool size.
  predicate WrapDisturbs(c: nat, n: nat)
    requires n > 0
  {
    c + 1 < TWO_64 <= c + n && TWO_64 % n != 0
  }

  lemma UndisturbedPlace(c: nat, n: nat, i: nat)
    requires c < TWO_64 && i < n <= TWO_64 && !WrapDisturbs(c, n)
    ensures After(c, i + 1) % n == (Increment(c) + i) % n
  {
    if c + 1 < TWO_64 <= c + i + 1 {
      ModMultiple(c + i + 1, TWO_64, n);
    }
  }

  lemma UndisturbedFirsts(sessions: seq<SessionId>, c: nat)
    requires sessions != [] && c < TWO_64 && |sessions| <= TWO_64 && !WrapDisturbs(c, |sessions|)
    ensures multiset(Firsts(sessions, c)) == multiset(sessions)
  {
    forall i | 0 <= i < |sessions|
      ensures Firsts(sessions, c)[i] == Choices(sessions, Increment(c))[i]
    {
      UndisturbedPlace(c, |sessions|, i);
    }
    assert Firsts(sessions, c) == Choices(sessions, Increment(c));
    EachPlaceOnce(sessions, Increment(c));
  }

  lemma {:induction false} CountAtMostOnce(s: seq<SessionId>, x: SessionId)
    requires Distinct(s)
    ensures multiset(s)[x] <= 1
  {
    if s != [] {
      CountAtMostOnce(s[1..], x);
      assert s == [s[0]] + s[1..];
    }
  }

  lemma CountTwice(s: seq<SessionId>, i: nat, j: nat)
    requires i < j < |s| && s[i] == s[j]
    ensures multiset(s)[s[i]] >= 2
  {
    assert s == s[..j] + [s[j]] + s[j + 1..];
    assert s[..j] == s[..i] + [s[i]] + s[i + 1..j];
  }

  // A disturbing wrap makes two of the calls start at the same place.
  lemma DisturbedFirsts(sessions: seq<SessionId>, c: nat)
    requires sessions != [] && c < TWO_64 && |sessions| <= TWO_64 && WrapDisturbs(c, |sessions|)
    ensures exists i, j :: 0 <= i < j < |sessions| && Firsts(sessions, c)[i] == Firsts(sessions, c)[j]
  {
    var n := |sessions|;
    var r, k := TWO_64 % n, TWO_64 - c - 1;
    var i, j := 0, 0;
    if r <= k {
      i, j := k - r, k;
      ModBack(TWO_64, r, n);
      assert After(c, i + 1) == TWO_64 - r && After(c, j + 1) == 0;
    } else {
      i, j := 0, r;
      ModBack(TWO_64, k, n);
      assert After(c, i + 1) == TWO_64 - k && After(c, j + 1) == r - k;
      ModWalk(r - k, 0, n);
    }
    assert Firsts(sessions, c)[i] == Choice(sessions, After(c, i + 1));
    assert Firsts(sessions, c)[j] == Choice(sessions, After(c, j + 1));
  }

  // With n distinct sessions open and equally loaded, n successive calls put each
  // of them first exactly once, unless the 64-bit counter wraps on the way and n
  // does not divide its range.
  lemma EachSessionFirstOnce(sessions: seq<SessionId>, c: nat)
    requires sessions != [] && c < TWO_64 && |sessions| <= TWO_64
    requires Distinct(sessions)
    ensures multiset(Firsts(sessions, c)) == multiset(sessions) <==> !WrapDisturbs(c, |sessions|)
  {
    if WrapDisturbs(c, |sessions|) {
      DisturbedFirsts(sessions, c);
      var f := Firsts(sessions, c);
      var i, j :| 0 <= i < j < |sessions| && f[i] == f[j];
      CountTwice(f, i, j);
      CountAtMostOnce(sessions, f[i]);
    } else {
      UndisturbedFirsts(sessions, c);
    }
  }

  // As many successive calls as there are sessions, while all of them stay open and
  // equally loaded; loads[i] are the loads the i-th call sees.
  method CandidateRound(pool: Pool, loads: seq<Load>, open: set<SessionId>) returns (firsts: seq<SessionId>)
    requires 0 < |pool.sessions| == |loads| <= TWO_64 && pool.counter < TWO_64
    requires forall x :: x in pool.sessions ==> x in open
    requires forall k, i :: 0 <= k < |loads| && 0 <= i < |pool.sessions| ==>
               loads[k](pool.sessions[i]) == loads[k](pool.sessions[0])
    modifies pool`counter
    ensures firsts == Firsts(pool.sessions, old(pool.counter))
    ensures Distinct(pool.sessions) ==>
              (multiset(firsts) == multiset(pool.sessions) <==> !WrapDisturbs(old(pool.counter), |pool.sessions|))
  {
    firsts := [];
    var k := 0;
    while k < |loads|
      invariant 0 <= k <= |loads| && |firsts| == k
      invariant pool.counter == After(old(pool.counter), k)
      invariant forall i :: 0 <= i < k ==> firsts[i] == Choice(pool.sessions, After(old(pool.counter), i + 1))
    {
      AfterIsRepeatedIncrement(old(pool.counter), k);
      var r := pool.Candidates(loads[k], open);
      EqualLoadsRotate(r, pool.sessions, pool.counter, loads[k], open);
      firsts := firsts + [r[0]];
      k := k + 1;
    }
    if Distinct(pool.sessions) {
      EachSessionFirstOnce(pool.sessions, old(pool.counter));
    }
  }
}
