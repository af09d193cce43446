// superviseVLESSBond with its session slot: one generation at a time, and any
// number of goroutines waiting for the slot.
//
// A step of the supervisor is one statement of its loop that others can observe;
// a slot operation is one section under the slot's lock.
module BondSupervisor {
  import opened Prelude

  type GenId = nat

  datatype Pc =
    | Top                       // about to look at the context and call the factory
    | Made(g: GenId)            // the factory returned a generation
    | Published(g: GenId)       // in the slot
    | Serving(g: GenId)         // session gauge raised; in generation.wait
    | Ended(g: GenId)           // wait returned
    | Cleared(g: GenId)         // out of the slot
    | Lowered(g: GenId)         // session gauge lowered
    | Retrying                  // waiting out the retry delay
    | Exited

  // slot.wait: has read the slot and blocks on the channel it found there.
  datatype Waiter = Looking | Blocked(channel: nat) | Got(g: GenId) | GaveUp

  // The session slot: what it holds, and its current channel. All earlier channels
  // are closed.
  datatype Slot = Slot(current: Option<GenId>, channel: nat)

  // cleanups and dropped are history: how often each generation's cleanup ran, and
  // the generations that a factory returned together with an error.
  datatype State = State(
    pc: Pc,
    slot: Slot,
    gauge: int,
    cleanups: seq<nat>,
    dropped: set<GenId>,
    waiters: seq<Waiter>)

  datatype Label =
    // made and failed: the factory returned a generation, an error, or both;
    // cancelled: the context is done
    | Supervise(made: bool, failed: bool, cancelled: bool)
    | CallWait
    | RunWaiter(w: nat, cancelled: bool)

  const START := State(Top, Slot(None, 0), 0, [], {}, [])

  // Both end with notifyLocked: close the channel and put a new one in its place.
  function Publish(slot: Slot, g: GenId): Slot {
    Slot(Some(g), slot.channel + 1)
  }

  function Clear(slot: Slot, g: GenId): Slot {
    if slot.current == Some(g) then Slot(None, slot.channel + 1) else slot
  }

  // A generation that comes with an error is neither published nor cleaned up.
  function SuperviseStep(s: State, made: bool, failed: bool, cancelled: bool): State {
    match s.pc
    case Top =>
      if cancelled then s.(pc := Exited)
      else if made && !failed then s.(pc := Made(|s.cleanups|), cleanups := s.cleanups + [0])
      else if made then s.(pc := Retrying, cleanups := s.cleanups + [0], dropped := s.dropped + {|s.cleanups|})
      else s.(pc := Retrying)
    case Made(g) => s.(slot := Publish(s.slot, g), pc := Published(g))
    case Published(g) => s.(pc := Serving(g), gauge := s.gauge + 1)
    case Serving(g) => s.(pc := Ended(g))
    case Ended(g) => s.(slot := Clear(s.slot, g), pc := Cleared(g))
    case Cleared(g) => s.(pc := Lowered(g), gauge := s.gauge - 1)
    case Lowered(g) =>
      if g < |s.cleanups| then
        s.(pc := if cancelled then Exited else Retrying, cleanups := s.cleanups[g := s.cleanups[g] + 1])
      else s
    case Retrying => s.(pc := if cancelled then Exited else Top)
    case Exited => s
  }

  function WaiterStep(slot: Slot, w: Waiter, cancelled: bool): Waiter {
    match w
    case Looking => if slot.current.Some? then Got(slot.current.value) else Blocked(slot.channel)
    case Blocked(channel) =>
      if cancelled then GaveUp else if channel < slot.channel then Looking else w
    case Got(_) => w
    case GaveUp => w
  }

  function Step(s: State, l: Label): State {
    match l
    case Supervise(made, failed, cancelled) => SuperviseStep(s, made, failed, cancelled)
    case CallWait => s.(waiters := s.waiters + [Looking])
    case RunWaiter(w, cancelled) =>
      if w < |s.waiters| then s.(waiters := s.waiters[w := WaiterStep(s.slot, s.waiters[w], cancelled)]) else s
  }

  function Exec(ls: seq<Label>): State {
    if ls == [] then START else Step(Exec(ls[..|ls| - 1]), ls[|ls| - 1])
  }

  // ---- The invariant ------------------------------------------------------

  // The generation the supervisor is responsible for.
  function Current(pc: Pc): Option<GenId> {
    match pc
    case Made(g) => Some(g)
    case Published(g) => Some(g)
    case Serving(g) => Some(g)
    case Ended(g) => Some(g)
    case Cleared(g) => Some(g)
    case Lowered(g) => Some(g)
    case _ => None
  }

  ghost predicate SupervisorInv(s: State) {
    && (Current(s.pc).Some? ==> Current(s.pc).value < |s.cleanups|)
    && (forall g :: 0 <= g < |s.cleanups| ==>
          s.cleanups[g] == if Current(s.pc) == Some(g) || g in s.dropped then 0 else 1)
    && (forall g :: g in s.dropped ==> g < |s.cleanups| && Current(s.pc) != Some(g))
    && s.slot.current == (if s.pc.Published? || s.pc.Serving? || s.pc.Ended? then Some(s.pc.g) else None)
    && s.gauge == if s.pc.Serving? || s.pc.Ended? || s.pc.Cleared? then 1 else 0
  }

  ghost predicate WaiterInv(s: State, w: Waiter) {
    && (w.Blocked? ==> w.channel <= s.slot.channel && (w.channel == s.slot.channel ==> s.slot.current == None))
    && (w.Got? ==> w.g < |s.cleanups|)
  }

  ghost predicate Inv(s: State) {
    SupervisorInv(s) && forall w :: 0 <= w < |s.waiters| ==> WaiterInv(s, s.waiters[w])
  }

  lemma SuperviseInv(s: State, made: bool, failed: bool, cancelled: bool)
    requires SupervisorInv(s)
    ensures var s' := SuperviseStep(s, made, failed, cancelled);
            && SupervisorInv(s') && s'.waiters == s.waiters && |s.cleanups| <= |s'.cleanups|
            && s.slot.channel <= s'.slot.channel && (s'.slot.channel == s.slot.channel ==> s'.slot == s.slot)
  {
  }

  lemma InvStep(s: State, l: Label)
    requires Inv(s)
    ensures Inv(Step(s, l))
  {
    var s' := Step(s, l);
    if l.Supervise? {
      SuperviseInv(s, l.made, l.failed, l.cancelled);
    }
    forall w | 0 <= w < |s'.waiters|
      ensures WaiterInv(s', s'.waiters[w])
    {
      assert w < |s.waiters| ==> WaiterInv(s, s.waiters[w]);
    }
  }

  lemma {:induction false} ExecInv(ls: seq<Label>)
    ensures Inv(Exec(ls))
  {
    if ls != [] {
      ExecInv(ls[..|ls| - 1]);
      InvStep(Exec(ls[..|ls| - 1]), ls[|ls| - 1]);
    }
  }

  // ---- Theorems -----------------------------------------------------------

  // A step in which the factory returns a generation together with an error.
  predicate ReturnsBoth(s: State, l: Label) {
    s.pc == Top && l.Supervise? && l.made && l.failed && !l.cancelled
  }

  predicate EverReturnedBoth(ls: seq<Label>) {
    ls != [] && (EverReturnedBoth(ls[..|ls| - 1]) || ReturnsBoth(Exec(ls[..|ls| - 1]), ls[|ls| - 1]))
  }

  lemma DropStep(s: State, l: Label)
    ensures Step(s, l).dropped != {} <==> s.dropped != {} || ReturnsBoth(s, l)
  {
    if ReturnsBoth(s, l) {
      assert |s.cleanups| in Step(s, l).dropped;
    }
  }

  lemma {:induction false} DroppedMeansBoth(ls: seq<Label>)
    ensures Exec(ls).dropped != {} <==> EverReturnedBoth(ls)
  {
    if ls != [] {
      DroppedMeansBoth(ls[..|ls| - 1]);
      DropStep(Exec(ls[..|ls| - 1]), ls[|ls| - 1]);
    }
  }

  // In every run at most one generation is live besides those that came with an
  // error, and none is cleaned up twice. Whenever the supervisor is between
  // generations, those are exactly the ones not cleaned up: all of them have been
  // cleaned up if and only if no factory call returned both.
  lemma OneGenerationAtATime(ls: seq<Label>)
    ensures var s := Exec(ls);
            && (forall g, h :: 0 <= g < |s.cleanups| && 0 <= h < |s.cleanups| && s.cleanups[g] == s.cleanups[h] == 0 ==>
                  g == h || g in s.dropped || h in s.dropped)
            && (forall g :: 0 <= g < |s.cleanups| ==> s.cleanups[g] <= 1)
            && (s.pc in {Top, Retrying, Exited} ==>
                  ((forall g :: 0 <= g < |s.cleanups| ==> s.cleanups[g] == 1) <==> !EverReturnedBoth(ls)))
  {
    ExecInv(ls);
    DroppedMeansBoth(ls);
    var s := Exec(ls);
    if s.dropped != {} {
      var g :| g in s.dropped;
      assert s.cleanups[g] == 0;
    }
  }

  // The slot holds only a live generation, and the session gauge is 0 or 1.
  lemma SlotHoldsTheLiveGeneration(ls: seq<Label>)
    ensures var s := Exec(ls);
            && (s.slot.current.Some? ==>
                  var g := s.slot.current.value; g < |s.cleanups| && s.cleanups[g] == 0 && g !in s.dropped)
            && 0 <= s.gauge <= 1
            && (s.pc in {Top, Retrying, Exited} ==> s.slot.current == None && s.gauge == 0)
  {
    ExecInv(ls);
  }

  // No lost wake-up: a waiter blocked on a channel that is still open has nothing
  // to wait for but an empty slot; with a generation in the slot its channel is
  // closed and its next two steps take it.
  lemma BlockedWaiterMeansEmptySlot(ls: seq<Label>, w: nat)
    requires w < |Exec(ls).waiters| && Exec(ls).waiters[w].Blocked?
    ensures var s := Exec(ls);
            && (s.waiters[w].channel == s.slot.channel ==> s.slot.current == None)
            && (s.slot.current.Some? ==>
                  var s' := Step(Step(s, RunWaiter(w, false)), RunWaiter(w, false));
                  w < |s'.waiters| && s'.waiters[w] == Got(s.slot.current.value))
  {
    ExecInv(ls);
    var s := Exec(ls);
    assert WaiterInv(s, s.waiters[w]);
  }

  // ---- The slot and a generation as the program keeps them -----------------

  // Channels are numbered in the order they are made; closed are those closed.
  class SessionSlot {
    var current: Option<GenId>
    var changed: nat
    var closed: set<nat>

    // Every channel but the current one has been closed, and that one has not: a
    // waiter blocked on an earlier channel has been woken.
    ghost predicate Valid()
      reads this
    {
      forall c: nat :: c in closed <==> c < changed
    }

    ghost function View(): Slot
      reads this
    {
      Slot(current, changed)
    }

    constructor ()
      ensures Valid() && View() == START.slot
    {
      current, changed, closed := None, 0, {};
    }

    // Closes the current channel, which no earlier notification has closed, and
    // makes a new one.
    method NotifyLocked()
      requires Valid()
      modifies this`changed, this`closed
      ensures Valid() && changed == old(changed) + 1 && old(changed) !in old(closed)
    {
      closed := closed + {changed};
      changed := changed + 1;
    }

    method PublishGeneration(g: GenId)
      requires Valid()
      modifies this
      ensures Valid() && View() == Publish(old(View()), g)
    {
      current := Some(g);
      NotifyLocked();
    }

    method ClearGeneration(g: GenId)
      requires Valid()
      modifies this
      ensures Valid() && View() == Clear(old(View()), g)
    {
      if current == Some(g) {
        current := None;
        NotifyLocked();
      }
    }
  }

  class Generation {
    var failed: bool
    var failureErr: Option<string>
    var cleaned: bool
    var cleanups: nat

    ghost predicate Valid()
      reads this
    {
      (failed <==> failureErr.Some?) && cleanups == if cleaned then 1 else 0
    }

    constructor ()
      ensures Valid() && !failed && !cleaned
    {
      failed, failureErr, cleaned, cleanups := false, None, false, 0;
    }

    // The first failure wins.
    method Fail(err: Option<string>)
      requires Valid()
      modifies this`failed, this`failureErr
      ensures Valid() && failed
      ensures failureErr == if old(failed) then old(failureErr)
                            else if err.Some? then err else Some("vless bond generation failed")
    {
      var e := if err.None? then Some("vless bond generation failed") else err;
      if !failed {
        failureErr := e;
        failed := true;
      }
    }

    // However often it is closed, its cleanup runs once.
    method Close()
      requires Valid()
      modifies this`cleaned, this`cleanups
      ensures Valid() && cleaned && cleanups == 1
    {
      if !cleaned {
        cleanups := cleanups + 1;
        cleaned := true;
      }
    }
  }

  // ---- The supervisor's course --------------------------------------------

  lemma StepExits(s: State, l: Label)
    ensures Step(s, l).pc == Exited ==> s.pc == Exited || (l.Supervise? && l.cancelled)
  {
  }

  // The supervisor ends only when its context is done.
  lemma {:induction false} ExitsOnlyWhenCancelled(ls: seq<Label>)
    requires Exec(ls).pc == Exited
    ensures exists l :: l in ls && l.Supervise? && l.cancelled
  {
    var before := ls[..|ls| - 1];
    StepExits(Exec(before), ls[|ls| - 1]);
    if Exec(before).pc == Exited {
      ExitsOnlyWhenCancelled(before);
      var l :| l in before && l.Supervise? && l.cancelled;
      assert l in ls;
    } else {
      assert ls[|ls| - 1] in ls;
    }
  }

  // How many of its steps lie before the next factory call.
  function StepsToTop(pc: Pc): nat {
    match pc
    case Top => 0
    case Retrying => 1
    case Lowered(_) => 2
    case Cleared(_) => 3
    case Ended(_) => 4
    case Serving(_) => 5
    case Published(_) => 6
    case Made(_) => 7
    case Exited => 0
  }

  // Without a cancellation each of the supervisor's steps takes it one step nearer to
  // its next factory call; from there it goes on with the generation it got, alone,
  // or to its retry delay.
  lemma SupervisorGoesOn(ls: seq<Label>, made: bool, failed: bool)
    requires Exec(ls).pc != Exited
    ensures var s, s' := Exec(ls), Step(Exec(ls), Supervise(made, failed, false));
            if s.pc == Top then
              s'.pc == if made && !failed then Made(|s.cleanups|) else Retrying
            else StepsToTop(s'.pc) == StepsToTop(s.pc) - 1
    // and with one it ends where it looks at its context
    ensures var s, s' := Exec(ls), Step(Exec(ls), Supervise(made, failed, true));
            s.pc == Top || s.pc == Retrying || s.pc.Lowered? ==> s'.pc == Exited
  {
    ExecInv(ls);
  }

  // A waiter starts by looking, gives up only when cancelled, and gets only what is in
  // the slot.
  lemma WaiterSteps(s: State, w: nat, cancelled: bool)
    requires w < |s.waiters|
    ensures var before, after := s.waiters[w], Step(s, RunWaiter(w, cancelled)).waiters[w];
            && (after.GaveUp? ==> before.GaveUp? || cancelled)
            && (after.Got? ==> after == before || (before == Looking && s.slot.current == Some(after.g)))
            && (before.Blocked? && cancelled ==> after.GaveUp?)
    ensures Step(s, CallWait).waiters == s.waiters + [Looking]
  {
  }
}
