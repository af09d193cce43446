// updateMaximum: a maximum kept by compare-and-swap, with any number of writers.
module MetricsMaximum {

  datatype Pc = Load(value: nat) | Cas(value: nat, current: nat) | Done(value: nat)

  datatype State = State(counter: nat, writers: seq<Pc>)

  datatype Label = Update(value: nat) | Run(t: nat)

  const START := State(0, [])

  function Act(counter: nat, pc: Pc): (nat, Pc) {
    match pc
    case Load(v) => (counter, if v > counter then Cas(v, counter) else Done(v))
    case Cas(v, current) => if counter == current then (v, Done(v)) else (counter, Load(v))
    case Done(_) => (counter, pc)
  }

  function Step(s: State, l: Label): State {
    match l
    case Update(v) => s.(writers := s.writers + [Load(v)])
    case Run(t) =>
      if t < |s.writers| then
        var (counter, pc) := Act(s.counter, s.writers[t]);
        State(counter, s.writers[t := pc])
      else s
  }

  function Exec(ls: seq<Label>): State {
    if ls == [] then START else Step(Exec(ls[..|ls| - 1]), ls[|ls| - 1])
  }

  ghost predicate Inv(s: State) {
    // finished writers are accounted for, and a swap only ever raises
    && (forall t :: 0 <= t < |s.writers| ==>
          && (s.writers[t].Done? ==> s.writers[t].value <= s.counter)
          && (s.writers[t].Cas? ==> s.writers[t].current < s.writers[t].value))
    // the counter is somebody's value
    && (s.counter == 0 || exists t :: 0 <= t < |s.writers| && s.writers[t].value == s.counter)
  }

  lemma InvStep(s: State, l: Label)
    requires Inv(s)
    ensures Inv(Step(s, l)) && s.counter <= Step(s, l).counter
  {
    var s' := Step(s, l);
    if l.Run? && l.t < |s.writers| {
      assert s'.writers[l.t].value == s.writers[l.t].value;
      if s'.counter == s.counter && s.counter != 0 {
        var u :| 0 <= u < |s.writers| && s.writers[u].value == s.counter;
        assert s'.writers[u].value == s.counter;
      }
    } else if s.counter != 0 {
      var u :| 0 <= u < |s.writers| && s.writers[u].value == s.counter;
      assert s'.writers[u].value == s.counter;
    }
  }

  lemma {:induction false} ExecInv(ls: seq<Label>)
    ensures Inv(Exec(ls))
  {
    if ls != [] {
      ExecInv(ls[..|ls| - 1]);
      InvStep(Exec(ls[..|ls| - 1]), ls[|ls| - 1]);
    }
  }

  // The counter never falls.
  lemma MaximumNeverFalls(ls: seq<Label>, l: Label)
    ensures Exec(ls).counter <= Exec(ls + [l]).counter
  {
    ExecInv(ls);
    InvStep(Exec(ls), l);
    assert (ls + [l])[..|ls|] == ls;
  }

  // When all writers are done, the counter is the largest value written: an upper
  // bound that one of them attains.
  lemma MaximumIsExact(ls: seq<Label>)
    requires forall t :: 0 <= t < |Exec(ls).writers| ==> Exec(ls).writers[t].Done?
    ensures forall t :: 0 <= t < |Exec(ls).writers| ==> Exec(ls).writers[t].value <= Exec(ls).counter
    ensures Exec(ls).counter == 0 ||
            exists t :: 0 <= t < |Exec(ls).writers| && Exec(ls).writers[t].value == Exec(ls).counter
  {
    ExecInv(ls);
  }

  // An undisturbed writer is done in two steps, and the counter is then the larger of
  // what it was and the writer's value.
  lemma UndisturbedUpdate(s: State, v: nat)
    ensures var t := |s.writers|;
            var s' := Step(Step(Step(s, Update(v)), Run(t)), Run(t));
            t < |s'.writers| && s'.writers[t] == Done(v) && s'.counter == if v > s.counter then v else s.counter
  {
  }
}
