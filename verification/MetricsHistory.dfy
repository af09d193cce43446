// metrics.Registry: which paths are active, and the bounded history of closed ones.
module MetricsHistory {
  import opened Prelude

  type PathId = nat

  const RECENT_LIMIT := 128

  // closures is history: every path that was closed, in order.
  datatype Paths = Paths(
    nextId: PathId,
    active: set<PathId>,
    recent: seq<PathId>,
    closed: set<PathId>,
    gauge: int,
    closures: seq<PathId>)

  const NO_PATHS := Paths(0, {}, [], {}, 0, [])

  // OpenPath: ids start at 1.
  function Open(r: Paths): Paths {
    r.(nextId := r.nextId + 1, active := r.active + {r.nextId + 1}, gauge := r.gauge + 1)
  }

  // Append, or shift the oldest out when full.
  function Remember(recent: seq<PathId>, id: PathId): seq<PathId> {
    if |recent| < RECENT_LIMIT then recent + [id] else recent[1..] + [id]
  }

  // Path.Close: repeated calls change nothing.
  function Close(r: Paths, id: PathId): Paths {
    if id in r.closed then r
    else if id in r.active then
      r.(closed := r.closed + {id}, active := r.active - {id}, gauge := r.gauge - 1,
         recent := Remember(r.recent, id), closures := r.closures + [id])
    else r.(closed := r.closed + {id})
  }

  function Last(s: seq<PathId>, n: nat): seq<PathId> {
    if |s| <= n then s else s[|s| - n..]
  }

  ghost predicate Inv(r: Paths) {
    && r.gauge == |r.active|
    && r.recent == Last(r.closures, RECENT_LIMIT)
    && Distinct(r.closures)
    && (forall id :: id in r.active ==> 0 < id <= r.nextId && id !in r.closed)
    && (forall id :: id in r.closures ==> 0 < id <= r.nextId && id in r.closed)
    && (forall id :: id in r.closed ==> id <= r.nextId)
    && (forall id :: 0 < id <= r.nextId ==> id in r.active || id in r.closures)
  }

  // A caller can close only a path it was given.
  datatype Label = OpenPath | ClosePath(id: PathId)

  function Step(r: Paths, l: Label): Paths {
    match l
    case OpenPath => Open(r)
    case ClosePath(id) => if 0 < id <= r.nextId then Close(r, id) else r
  }

  function Exec(ls: seq<Label>): Paths {
    if ls == [] then NO_PATHS else Step(Exec(ls[..|ls| - 1]), ls[|ls| - 1])
  }

  lemma RememberLast(closures: seq<PathId>, id: PathId)
    ensures Remember(Last(closures, RECENT_LIMIT), id) == Last(closures + [id], RECENT_LIMIT)
  {
  }

  lemma InvStep(r: Paths, l: Label)
    requires Inv(r)
    ensures Inv(Step(r, l))
  {
    if l.ClosePath? {
      RememberLast(r.closures, l.id);
    }
  }

  lemma {:induction false} ExecInv(ls: seq<Label>)
    ensures Inv(Exec(ls))
  {
    if ls != [] {
      ExecInv(ls[..|ls| - 1]);
      InvStep(Exec(ls[..|ls| - 1]), ls[|ls| - 1]);
    }
  }

  // In every run the history is exactly the last closures, at most 128, in order,
  // and every path ever opened is active or has been closed once.
  lemma HistoryIsLastClosures(ls: seq<Label>)
    ensures var r := Exec(ls);
            && r.recent == (if |r.closures| <= 128 then r.closures else r.closures[|r.closures| - 128..])
            && Distinct(r.closures)
            && r.gauge == |r.active|
  {
    ExecInv(ls);
  }

  lemma EveryPathIsActiveOrClosed(ls: seq<Label>, id: PathId)
    requires 0 < id <= Exec(ls).nextId
    ensures (id in Exec(ls).active) != (id in Exec(ls).closures)
  {
    ExecInv(ls);
  }

  // ---- Snapshots ----------------------------------------------------------

  datatype Snapshot = Snapshot(id: PathId, active: bool)

  ghost predicate SortedById(s: seq<Snapshot>) {
    forall i, j :: 0 <= i < j < |s| ==> s[i].id < s[j].id
  }

  function ActiveIds(s: seq<Snapshot>): set<PathId> {
    set i | 0 <= i < |s| && s[i].active :: s[i].id
  }

  // How many entries are marked active.
  function ActiveEntries(s: seq<Snapshot>): nat {
    if s == [] then 0 else (if s[0].active then 1 else 0) + ActiveEntries(s[1..])
  }

  lemma ActiveIdsStep(s: seq<Snapshot>)
    requires SortedById(s) && s != []
    ensures SortedById(s[1..]) && s[0].id !in ActiveIds(s[1..])
    ensures ActiveIds(s) == ActiveIds(s[1..]) + (if s[0].active then {s[0].id} else {})
  {
    assert forall i :: 1 <= i < |s| ==> s[i] == s[1..][i - 1];
  }

  lemma {:induction false} ActiveEntriesAreIds(s: seq<Snapshot>)
    requires SortedById(s)
    ensures ActiveEntries(s) == |ActiveIds(s)|
  {
    if s != [] {
      ActiveIdsStep(s);
      ActiveEntriesAreIds(s[1..]);
    }
  }

  ghost predicate Absent(s: seq<Snapshot>, id: PathId) {
    forall i :: 0 <= i < |s| ==> s[i].id != id
  }

  lemma InsertedSorted(s: seq<Snapshot>, k: nat, x: Snapshot)
    requires k <= |s| && SortedById(s)
    requires forall i :: 0 <= i < k ==> s[i].id < x.id
    requires forall i :: k <= i < |s| ==> x.id < s[i].id
    ensures SortedById(Inserted(s, k, x))
  {
    var r := Inserted(s, k, x);
    forall i, j | 0 <= i < j < |r|
      ensures r[i].id < r[j].id
    {
      assert InsertedAt(s, k, x, i).id < InsertedAt(s, k, x, j).id;
    }
  }

  lemma InsertedMembers(s: seq<Snapshot>, k: nat, x: Snapshot)
    requires k <= |s|
    ensures forall y :: y in Inserted(s, k, x) <==> y in s || y == x
  {
    assert s == s[..k] + s[k..];
    assert forall y :: y in s <==> y in s[..k] || y in s[k..];
  }

  // Puts one entry in its place.
  method Insert(s: seq<Snapshot>, x: Snapshot) returns (r: seq<Snapshot>)
    requires SortedById(s) && Absent(s, x.id)
    ensures SortedById(r)
    ensures forall y :: y in r <==> y in s || y == x
  {
    var k := 0;
    while k < |s| && s[k].id < x.id
      invariant 0 <= k <= |s|
      invariant forall i :: 0 <= i < k ==> s[i].id < x.id
    {
      k := k + 1;
    }
    InsertedSorted(s, k, x);
    InsertedMembers(s, k, x);
    r := Inserted(s, k, x);
  }

  // The registry as the program keeps it.
  class Registry {
    var nextPathId: PathId
    var activePathsById: set<PathId>
    var recentPaths: seq<PathId>
    var closedPaths: set<PathId>
    var activePaths: int
    ghost var closures: seq<PathId>

    ghost function View(): Paths
      reads this
    {
      Paths(nextPathId, activePathsById, recentPaths, closedPaths, activePaths, closures)
    }

    constructor ()
      ensures View() == NO_PATHS
    {
      nextPathId, activePathsById, recentPaths, closedPaths, activePaths, closures := 0, {}, [], {}, 0, [];
    }

    method OpenPath() returns (id: PathId)
      modifies this
      ensures View() == Open(old(View())) && id == nextPathId
    {
      nextPathId := nextPathId + 1;
      id := nextPathId;
      activePathsById := activePathsById + {id};
      activePaths := activePaths + 1;
    }

    method ClosePath(id: PathId)
      modifies this
      ensures View() == Close(old(View()), id)
    {
      if id in closedPaths {
        return;
      }
      closedPaths := closedPaths + {id};
      if id in activePathsById {
        activePathsById := activePathsById - {id};
        activePaths := activePaths - 1;
        if |recentPaths| < RECENT_LIMIT {
          recentPaths := recentPaths + [id];
        } else {
          recentPaths := recentPaths[1..] + [id];
        }
        closures := closures + [id];
      }
    }

    // Sorted by id without repetition, one entry per active or remembered path,
    // and as many entries marked active as the active count says.
    method PathSnapshots() returns (active: int, paths: seq<Snapshot>)
      requires Inv(View())
      ensures SortedById(paths)
      ensures forall y :: y in paths <==>
                (y.id in activePathsById && y.active) || (y.id in recentPaths && !y.active)
      ensures active == ActiveEntries(paths)
    {
      active := activePaths;
      paths := [];
      var todo := activePathsById;
      while todo != {}
        invariant todo <= activePathsById
        invariant SortedById(paths)
        invariant forall y :: y in paths <==> y.active && y.id in activePathsById - todo
        decreases |todo|
      {
        var id :| id in todo;
        paths := Insert(paths, Snapshot(id, id !in closedPaths));
        todo := todo - {id};
      }
      var k := 0;
      while k < |recentPaths|
        invariant 0 <= k <= |recentPaths|
        invariant SortedById(paths)
        invariant forall y :: y in paths <==>
                    (y.active && y.id in activePathsById) || (!y.active && y.id in recentPaths[..k])
      {
        var id := recentPaths[k];
        RecentIsFresh(View(), k);
        paths := Insert(paths, Snapshot(id, id !in closedPaths));
        assert recentPaths[..k + 1] == recentPaths[..k] + [id];
        k := k + 1;
      }
      assert recentPaths[..k] == recentPaths;
      ActiveEntriesAreIds(paths);
      ActiveIdsAre(paths, activePathsById);
    }
  }

  // A remembered path is closed, not active, and occurs once.
  lemma RecentIsFresh(r: Paths, k: nat)
    requires Inv(r) && k < |r.recent|
    ensures r.recent[k] in r.closed && r.recent[k] !in r.active && r.recent[k] !in r.recent[..k]
  {
    var d := |r.closures| - |r.recent|;
    assert forall i :: 0 <= i < |r.recent| ==> r.recent[i] == r.closures[d + i];
  }

  lemma ActiveIdsAre(s: seq<Snapshot>, active: set<PathId>)
    requires forall y :: y in s && y.active ==> y.id in active
    requires forall id :: id in active ==> Snapshot(id, true) in s
    ensures ActiveIds(s) == active
  {
    forall id | id in active
      ensures id in ActiveIds(s)
    {
      var i :| 0 <= i < |s| && s[i] == Snapshot(id, true);
    }
  }
}
