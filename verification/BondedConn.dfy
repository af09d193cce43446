// BondedPacketConn: the state its mutex protects, and each locked section of it.
//
// The sections are given twice: as functions on the value `Bond`, which are the
// specification the interleaving proofs in BondRaces reason about, and as the
// methods of the class BondedPacketConn, which do the work in place as the
// program does and are proved to realise those functions.
module BondedConn {
  import opened Prelude

  type PathId = nat
  type TimerId = nat

  // `armed` are the timers the runtime still has to fire; `timer` is the one the
  // emptyTimer field tracks. A timer leaves `armed` when it is stopped or fires.
  datatype Bond = Bond(
    closed: bool,
    paths: seq<PathId>,
    timer: Option<TimerId>,
    expired: bool,
    armed: set<TimerId>,
    nextTimer: TimerId,
    notified: bool)

  // A freshly made connection.
  const EMPTY_BOND := Bond(false, [], None, false, {}, 0, false)

  // The locked section of AddConn that follows its closed check.
  function Install(b: Bond, p: PathId): Bond {
    if b.expired then b
    else StopTimer(b).(paths := b.paths + [p])
  }

  // emptyTimer.Stop() and forgetting it, as AddConn and Close do.
  function StopTimer(b: Bond): Bond {
    match b.timer
    case None => b
    case Some(id) => b.(timer := None, armed := b.armed - {id})
  }

  // The locked section of removePath.
  function Detach(b: Bond, p: PathId): Bond {
    b.(paths := Without(b.paths, p))
  }

  // time.AfterFunc in startEmptyGrace.
  function ArmGrace(b: Bond): Bond {
    b.(timer := Some(b.nextTimer), armed := b.armed + {b.nextTimer}, nextTimer := b.nextTimer + 1)
  }

  // The locked section of the timer callback.
  function Expire(b: Bond): Bond {
    if b.paths != [] then b.(timer := None) else b.(expired := true, timer := None)
  }

  // notifyStateChanged: a non-blocking send on a channel with room for one.
  function Notify(b: Bond): Bond {
    b.(notified := true)
  }

  class BondedPacketConn {
    var closed: bool
    var paths: seq<PathId>
    var emptyTimer: Option<TimerId>
    var emptyExpired: bool
    var armed: set<TimerId>
    var nextTimer: TimerId
    var stateCh: bool

    ghost function View(): Bond
      reads this
    {
      Bond(closed, paths, emptyTimer, emptyExpired, armed, nextTimer, stateCh)
    }

    constructor ()
      ensures View() == EMPTY_BOND
    {
      closed, paths, emptyTimer, emptyExpired := false, [], None, false;
      armed, nextTimer, stateCh := {}, 0, false;
    }

    method StopEmptyTimer()
      modifies this
      ensures View() == StopTimer(old(View()))
    {
      if emptyTimer.Some? {
        armed := armed - {emptyTimer.value};
        emptyTimer := None;
      }
    }

    method InstallPath(path: PathId) returns (installed: bool)
      modifies this
      ensures installed == !old(emptyExpired)
      ensures View() == Install(old(View()), path)
    {
      if emptyExpired {
        return false;
      }
      StopEmptyTimer();
      paths := paths + [path];
      installed := true;
    }

    method DetachPath(path: PathId) returns (removed: bool)
      modifies this
      ensures removed <==> path in old(paths)
      ensures View() == Detach(old(View()), path)
    {
      removed := false;
      var i := 0;
      while i < |paths|
        invariant 0 <= i <= |paths|
        invariant !removed && View() == old(View())
        invariant path !in paths[..i]
      {
        if paths[i] == path {
          WithoutAt(paths, i, path);
          paths := paths[..i] + paths[i + 1..];
          removed := true;
          break;
        }
        i := i + 1;
      }
      if !removed {
        WithoutAbsent(paths, path);
      }
    }

    method StartGraceTimer()
      modifies this
      ensures View() == ArmGrace(old(View()))
    {
      emptyTimer := Some(nextTimer);
      armed := armed + {nextTimer};
      nextTimer := nextTimer + 1;
    }

    method ExpireEmpty() returns (expiredNow: bool)
      modifies this
      ensures expiredNow <==> old(paths) == []
      ensures View() == Expire(old(View()))
    {
      if |paths| != 0 {
        emptyTimer := None;
        return false;
      }
      emptyExpired := true;
      emptyTimer := None;
      expiredNow := true;
    }

    method NotifyStateChanged()
      modifies this
      ensures View() == Notify(old(View()))
    {
      if !stateCh {
        stateCh := true;
      }
    }
  }
}
