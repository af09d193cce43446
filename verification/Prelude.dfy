// Small shared vocabulary.
module Prelude {
  datatype Option<+T> = None | Some(value: T)

  lemma Assoc<T>(a: seq<T>, b: seq<T>, c: seq<T>)
    ensures (a + b) + c == a + (b + c)
  {
  }

  ghost predicate Distinct<T>(s: seq<T>) {
    forall i, j :: 0 <= i < j < |s| ==> s[i] != s[j]
  }

  // x put in front of place k.
  function Inserted<T>(s: seq<T>, k: nat, x: T): seq<T>
    requires k <= |s|
  {
    s[..k] + [x] + s[k..]
  }

  function InsertedAt<T>(s: seq<T>, k: nat, x: T, i: nat): (y: T)
    requires k <= |s| && i <= |s|
    ensures y == Inserted(s, k, x)[i]
  {
    if i < k then s[i] else if i == k then x else s[i - 1]
  }

  // Removes the first occurrence of p.
  function Without<T(==)>(s: seq<T>, p: T): seq<T> {
    if s == [] then [] else if s[0] == p then s[1..] else [s[0]] + Without(s[1..], p)
  }

  // Without drops exactly one element: nothing else moves past another or is lost.
  lemma {:induction false} WithoutAt<T>(s: seq<T>, i: nat, p: T)
    requires i < |s| && s[i] == p && p !in s[..i]
    ensures Without(s, p) == s[..i] + s[i + 1..]
  {
    if i == 0 {
    } else {
      assert s[0] == s[..i][0];
      assert s[1..][..i - 1] == s[..i][1..];
      WithoutAt(s[1..], i - 1, p);
      assert s == [s[0]] + s[1..];
    }
  }

  lemma {:induction false} WithoutAbsent<T>(s: seq<T>, p: T)
    requires p !in s
    ensures Without(s, p) == s
  {
    if s != [] {
      WithoutAbsent(s[1..], p);
    }
  }

  // On a list without repetitions, removal takes p out and leaves the rest.
  lemma {:induction false} WithoutDistinct<T>(s: seq<T>, p: T)
    requires Distinct(s)
    ensures Distinct(Without(s, p))
    ensures forall q :: q in Without(s, p) <==> q in s && q != p
  {
    if s != [] {
      assert s == [s[0]] + s[1..];
      assert s[0] !in s[1..];
      if s[0] != p {
        WithoutDistinct(s[1..], p);
      }
    }
  }
}
