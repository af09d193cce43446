// Going round a list from where a counter points.
module RoundRobin {
  import opened Arith

  // The list read cyclically from place i.
  function Turned<T>(s: seq<T>, i: nat): seq<T>
    requires i <= |s|
  {
    s[i..] + s[..i]
  }

  // The list read cyclically from where the counter points.
  function Rotate<T>(s: seq<T>, counter: nat): (r: seq<T>)
    ensures |r| == |s|
  {
    if s == [] then [] else Turned(s, counter % |s|)
  }

  lemma TurnedAt<T>(s: seq<T>, i: nat, k: nat)
    requires i < |s| && k < |s|
    ensures Turned(s, i)[k] == s[(i + k) % |s|]
  {
    ModWalk(i, k, |s|);
  }

  // Rotation is the counter's walk around the list.
  lemma RotateAt<T>(s: seq<T>, c: nat, k: nat)
    requires k < |s|
    ensures |Rotate(s, c)| == |s|
    ensures Rotate(s, c)[k] == s[(c % |s| + k) % |s|] == s[(c + k) % |s|]
  {
    TurnedAt(s, c % |s|, k);
    ModAdd(c, k, |s|);
  }

  // Rotating loses nothing and repeats nothing.
  lemma RotatePermutes<T>(s: seq<T>, c: nat)
    ensures multiset(Rotate(s, c)) == multiset(s)
    ensures |Rotate(s, c)| == |s|
  {
    if s != [] {
      var i := c % |s|;
      assert s == s[..i] + s[i..];
    }
  }

  // The place a counter value points at.
  function Choice<T>(s: seq<T>, counter: nat): T
    requires s != []
  {
    s[counter % |s|]
  }

  // The choices of as many consecutive counter values as there are places.
  function Choices<T>(s: seq<T>, counter: nat): seq<T>
    requires s != []
  {
    seq<T>(|s|, i requires 0 <= i => Choice(s, counter + i))
  }

  lemma ChoiceAt<T>(s: seq<T>, c: nat, i: nat)
    requires i < |s|
    ensures |Choices(s, c)| == |Rotate(s, c)| == |s|
    ensures Choices(s, c)[i] == Rotate(s, c)[i]
  {
    RotateAt(s, c, i);
    assert Choices(s, c)[i] == Choice(s, c + i);
  }

  lemma ChoicesRotate<T>(s: seq<T>, c: nat)
    requires s != []
    ensures Choices(s, c) == Rotate(s, c)
  {
    var choices, rotated := Choices(s, c), Rotate(s, c);
    ChoiceAt(s, c, 0);
    forall i | 0 <= i < |choices|
      ensures choices[i] == rotated[i]
    {
      ChoiceAt(s, c, i);
    }
    assert choices == rotated;
  }

  // They take every place exactly once, in rotated order.
  lemma EachPlaceOnce<T>(s: seq<T>, c: nat)
    requires s != []
    ensures Choices(s, c) == Rotate(s, c)
    ensures multiset(Choices(s, c)) == multiset(s)
  {
    ChoicesRotate(s, c);
    RotatePermutes(s, c);
  }
}
