// vlessBondGroup: how many paths a server-side bond admits and how large a KCP
// window it applies.
module BondGroup {
  import opened Prelude
  import opened KcpProfile
  import opened BondHello

  // A KCP session as its window setter shows it.
  datatype Setter = Setter(id: nat, size: int)

  // count is pc.Count(); appliedWnd is what the group remembers, window the setter.
  datatype Group = Group(
    hello: Hello,
    count: nat,
    maxPaths: nat,
    window: Option<Setter>,
    appliedWnd: int)

  function NewGroup(hello: Hello): Group {
    Group(hello, 0, 0, None, 0)
  }

  function DesiredPaths(g: Group): int {
    if g.hello.version == 2 && g.hello.expectedPaths > 0 then g.hello.expectedPaths
    else if g.maxPaths < 1 then 1
    else g.maxPaths
  }

  predicate Full(g: Group) {
    g.hello.version == 2 && g.count >= g.hello.expectedPaths
  }

  // addWithCleanup after its limit check, in its two parts. First AddConn; accepted:
  // the bond took the connection.
  function Join(g: Group, accepted: bool): Group {
    g.(count := g.count + if accepted then 1 else 0)
  }

  // Then Count, and what follows from it.
  function CountPaths(g: Group, base: int): Group {
    ApplyWindow(g.(maxPaths := if g.count > g.maxPaths then g.count else g.maxPaths), base)
  }

  function Lose(g: Group, lost: nat): Group {
    g.(count := if lost <= g.count then g.count - lost else 0)
  }

  // Both parts together; lost: paths that failed between them.
  function Admit(g: Group, accepted: bool, lost: nat, base: int): Group {
    CountPaths(Lose(Join(g, accepted), lost), base)
  }

  function ApplyWindow(g: Group, base: int): Group {
    var window := BondedWindow(base, DesiredPaths(g));
    if g.window.None? || window <= g.appliedWnd then g
    else g.(window := Some(g.window.value.(size := window)), appliedWnd := window)
  }

  function InstallSetter(g: Group, id: nat, base: int): Group {
    var window := BondedWindow(base, DesiredPaths(g));
    g.(window := Some(Setter(id, window)), appliedWnd := window)
  }

  function ClearSetter(g: Group, id: nat): Group {
    if g.window.Some? && g.window.value.id == id then g.(window := None, appliedWnd := 0) else g
  }

  // ---- What every operation keeps -----------------------------------------

  // The size the session should have: base times desired paths, both at least 1,
  // capped.
  function IdealWindow(g: Group, base: int): int {
    Min(MAX_KCP_WINDOW, Floor1(base) * Floor1(DesiredPaths(g)))
  }

  ghost predicate GroupInv(g: Group, base: int) {
    && (g.window.Some? ==> g.appliedWnd == g.window.value.size == IdealWindow(g, base))
    && (g.hello.version == 2 ==> g.count <= g.hello.expectedPaths)
  }

  ghost predicate Grows(g: Group, g': Group) {
    && g'.hello == g.hello && g.maxPaths <= g'.maxPaths
    && (g.window.Some? && g'.window.Some? && g.window.value.id == g'.window.value.id ==>
          g.window.value.size <= g'.window.value.size)
  }

  lemma JoinKeeps(g: Group, accepted: bool, base: int)
    requires GroupInv(g, base) && !Full(g)
    ensures GroupInv(Join(g, accepted), base) && Grows(g, Join(g, accepted))
  {
  }

  lemma CountKeeps(g: Group, base: int)
    requires GroupInv(g, base)
    ensures GroupInv(CountPaths(g, base), base) && Grows(g, CountPaths(g, base))
  {
    var g' := CountPaths(g, base);
    BondedWindowIsCappedProduct(base, DesiredPaths(g));
    BondedWindowIsCappedProduct(base, DesiredPaths(g'));
    BondedWindowMonotone(base, DesiredPaths(g), DesiredPaths(g'));
  }

  lemma AdmitKeeps(g: Group, accepted: bool, lost: nat, base: int)
    requires GroupInv(g, base) && !Full(g)
    ensures GroupInv(Admit(g, accepted, lost, base), base) && Grows(g, Admit(g, accepted, lost, base))
  {
    JoinKeeps(g, accepted, base);
    CountKeeps(Lose(Join(g, accepted), lost), base);
  }

  lemma SettersKeep(g: Group, id: nat, base: int)
    requires GroupInv(g, base)
    ensures GroupInv(InstallSetter(g, id, base), base) && Grows(g, InstallSetter(g, id, base))
    ensures GroupInv(ClearSetter(g, id), base) && Grows(g, ClearSetter(g, id))
  {
    BondedWindowIsCappedProduct(base, DesiredPaths(g));
  }

  // ---- The group as the program keeps it ----------------------------------

  class KcpSession {
    const id: nat
    var size: int

    constructor (id: nat)
      ensures this.id == id
    {
      this.id := id;
      size := 0;
    }

    method SetWindowSize(window: int)
      modifies this
      ensures size == window
    {
      size := window;
    }
  }

  class VlessBondGroup {
    const hello: Hello
    const baseWindow: int
    var count: nat
    var maxPaths: nat
    var window: KcpSession?
    var appliedWnd: int

    ghost function View(): Group
      reads this, window
    {
      Group(hello, count, maxPaths, if window == null then None else Some(Setter(window.id, window.size)), appliedWnd)
    }

    constructor (hello: Hello, baseWindow: int)
      ensures View() == NewGroup(hello) && this.baseWindow == baseWindow
    {
      this.hello, this.baseWindow := hello, baseWindow;
      count, maxPaths, window, appliedWnd := 0, 0, null, 0;
    }

    method DesiredPathCount() returns (n: int)
      ensures n == DesiredPaths(View())
    {
      if hello.version == 2 && hello.expectedPaths > 0 {
        return hello.expectedPaths;
      }
      if maxPaths < 1 {
        return 1;
      }
      n := maxPaths;
    }

    method ApplyWindowLocked() returns (resized: bool, size: int)
      modifies this`appliedWnd, window
      ensures View() == ApplyWindow(old(View()), baseWindow)
      ensures size == BondedWindow(baseWindow, DesiredPaths(old(View())))
      ensures resized <==> window != null && size > old(appliedWnd)
    {
      var paths := DesiredPathCount();
      size := BondedWindow(baseWindow, paths);
      if window == null || size <= appliedWnd {
        return false, size;
      }
      window.SetWindowSize(size);
      appliedWnd := size;
      resized := true;
    }

    method AddWithCleanup(accepted: bool, lost: nat) returns (ok: bool)
      modifies this`count, this`maxPaths, this`appliedWnd, window
      ensures ok <==> hello.version != 2 || old(count) < hello.expectedPaths
      ensures View() == if ok then Admit(old(View()), accepted, lost, baseWindow) else old(View())
    {
      if hello.version == 2 && count >= hello.expectedPaths {
        return false;
      }
      if accepted {
        count := count + 1;
      }
      count := if lost <= count then count - lost else 0;
      var active := count;
      if active > maxPaths {
        maxPaths := active;
      }
      var resized, size := ApplyWindowLocked();
      ok := true;
    }

    method InstallWindowSetter(setter: KcpSession) returns (pathCount: int, size: int)
      modifies this`window, this`appliedWnd, setter
      ensures View() == InstallSetter(old(View()), setter.id, baseWindow)
      ensures pathCount == DesiredPaths(View()) && size == setter.size
    {
      window := setter;
      appliedWnd := 0;
      pathCount := DesiredPathCount();
      size := BondedWindow(baseWindow, pathCount);
      setter.SetWindowSize(size);
      appliedWnd := size;
    }

    method ClearWindowSetter(setter: KcpSession)
      requires window != null && window.id == setter.id ==> window == setter
      modifies this`window, this`appliedWnd
      ensures View() == ClearSetter(old(View()), setter.id)
    {
      if window == setter {
        window := null;
        appliedWnd := 0;
      }
    }
  }
}
