// Facts about remainders and 64-bit counters used by the round robins.
module Arith {
  const TWO_63: nat := 0x8000_0000_0000_0000
  const TWO_64: nat := 0x1_0000_0000_0000_0000

  // A uint64 counter after atomic.AddUint64(&counter, 1).
  function Increment(counter: nat): nat {
    if counter + 1 == TWO_64 then 0 else counter + 1
  }

  // The counter k increments after it was c.
  function After(c: nat, k: nat): nat {
    if c + k < TWO_64 then c + k else c + k - TWO_64
  }

  lemma AfterIsRepeatedIncrement(c: nat, k: nat)
    requires c < TWO_64 && k < TWO_64
    ensures After(c, 0) == c && After(c, k + 1) == Increment(After(c, k))
  {
  }

  lemma MulBound(d: int, n: nat)
    ensures d >= 1 ==> d * n >= n
    ensures d <= -1 ==> d * n <= 0 - n
  {
  }

  lemma DivUnique(x: int, n: nat, q: int, r: nat)
    requires n > 0 && x == q * n + r && r < n
    ensures x % n == r && x / n == q
  {
    MulBound(q - x / n, n);
    assert (q - x / n) * n == q * n - x / n * n;
  }

  lemma ModAdd(c: nat, k: nat, n: nat)
    requires n > 0
    ensures (c + k) % n == (c % n + k) % n
  {
    var q, p := c / n, (c % n + k) / n;
    assert (q + p) * n == q * n + p * n;
    DivUnique(c + k, n, q + p, (c % n + k) % n);
  }

  // One step of a walk around n places, written without division.
  lemma ModWalk(a: nat, k: nat, n: nat)
    requires a < n && k < n
    ensures (a + k) % n == if a + k < n then a + k else a + k - n
  {
    if a + k < n {
      DivUnique(a + k, n, 0, a + k);
    } else {
      DivUnique(a + k, n, 1, a + k - n);
    }
  }

  // A remainder by a multiple of n does not disturb the remainder by n.
  lemma ModMultiple(x: nat, w: nat, n: nat)
    requires 0 < n && 0 < w && w % n == 0 && w <= x
    ensures (x - w) % n == x % n
  {
    var d, q := w / n, (x - w) / n;
    assert (d + q) * n == d * n + q * n;
    DivUnique(x, n, d + q, (x - w) % n);
  }

  // Stepping back from w by k.
  lemma ModBack(w: nat, k: nat, n: nat)
    requires 0 < n && k <= w % n
    ensures (w - k) % n == w % n - k
  {
    DivUnique(w - k, n, w / n, w % n - k);
  }
}
