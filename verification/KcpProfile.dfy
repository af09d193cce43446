// The KCP parameters both ends of a bond must agree on, and the window of a bond.
module KcpProfile {

  const MAX_KCP_WINDOW := 8192
  const MIN_KCP_MTU := 50
  const KCP_XMIT_BUFFER := 1500
  const KCP_CRYPT_HEADER := 20
  const KCP_FEC_HEADER := 8

  predicate ValidFec(dataShards: int, parityShards: int) {
    if dataShards == 0 && parityShards == 0 then true
    else if dataShards <= 0 || parityShards <= 0 then false
    else !(dataShards > 256 || parityShards > 256 || dataShards > 256 - parityShards)
  }

  function MaxKcpMtu(dataShards: int, parityShards: int): int {
    KCP_XMIT_BUFFER - KCP_CRYPT_HEADER - if dataShards > 0 && parityShards > 0 then KCP_FEC_HEADER else 0
  }

  function Floor1(n: int): int {
    if n < 1 then 1 else n
  }

  function Min(a: int, b: int): int {
    if a <= b then a else b
  }

  // bondedKCPWindow: it divides before it multiplies.
  function BondedWindow(baseWindow: int, pathCount: int): int {
    var base := Floor1(baseWindow);
    if base >= MAX_KCP_WINDOW then MAX_KCP_WINDOW
    else
      var paths := Floor1(pathCount);
      if paths > MAX_KCP_WINDOW / base then MAX_KCP_WINDOW else base * paths
  }

  lemma MulAtMost(a: int, b: int, c: int)
    requires 0 <= a && b <= c
    ensures a * b <= a * c
  {
  }

  // The window is the product of base and path count, both at least 1, cut off
  // at the maximum; so no value on the way is larger than the maximum either.
  lemma BondedWindowIsCappedProduct(baseWindow: int, pathCount: int)
    ensures BondedWindow(baseWindow, pathCount) == Min(8192, Floor1(baseWindow) * Floor1(pathCount))
    ensures 1 <= BondedWindow(baseWindow, pathCount) <= 8192
  {
    var base, paths := Floor1(baseWindow), Floor1(pathCount);
    MulAtMost(base, 1, paths);
    if base < MAX_KCP_WINDOW {
      var q := MAX_KCP_WINDOW / base;
      if paths > q {
        MulAtMost(base, q + 1, paths);
      } else {
        MulAtMost(base, paths, q);
      }
    }
  }

  lemma BondedWindowMonotone(baseWindow: int, fewer: int, more: int)
    requires fewer <= more
    ensures BondedWindow(baseWindow, fewer) <= BondedWindow(baseWindow, more)
  {
    BondedWindowIsCappedProduct(baseWindow, fewer);
    BondedWindowIsCappedProduct(baseWindow, more);
    MulAtMost(Floor1(baseWindow), Floor1(fewer), Floor1(more));
  }
}
