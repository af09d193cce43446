// connectionLimiter: a total and a per-address count of admitted connections.
module ConnectionLimiter {
  import opened Prelude

  datatype Limits = Limits(maxTotal: nat, maxPerIP: nat)

  datatype Counts = Counts(total: int, perIP: map<string, int>)

  datatype Verdict = Accepted | InvalidIP | GlobalLimit | PerIPLimit

  function PerIP(c: Counts, ip: string): int {
    if ip in c.perIP then c.perIP[ip] else 0
  }

  // Acquire; ip is None for an address without a valid IP.
  function Admit(c: Counts, ip: Option<string>, m: Limits): (Counts, Verdict) {
    match ip
    case None => (c, InvalidIP)
    case Some(a) =>
      if c.total >= m.maxTotal then (c, GlobalLimit)
      else if PerIP(c, a) >= m.maxPerIP then (c, PerIPLimit)
      else (Counts(c.total + 1, c.perIP[a := PerIP(c, a) + 1]), Accepted)
  }

  function Release(c: Counts, ip: string): Counts {
    Counts(if c.total > 0 then c.total - 1 else c.total,
           if PerIP(c, ip) <= 1 then c.perIP - {ip} else c.perIP[ip := PerIP(c, ip) - 1])
  }

  // The addresses of the live leases, as a bag: the counts are exactly its size
  // and its multiplicities, and no address is listed without a lease.
  ghost predicate Counting(c: Counts, live: multiset<string>) {
    && c.total == |live|
    && (forall ip :: ip in c.perIP <==> ip in live)
    && (forall ip :: ip in c.perIP ==> c.perIP[ip] == live[ip])
  }

  ghost predicate WithinLimits(c: Counts, m: Limits) {
    c.total <= m.maxTotal && forall ip :: ip in c.perIP ==> c.perIP[ip] <= m.maxPerIP
  }

  // Admission adds the lease to the bag exactly when there is room for it.
  lemma AdmitCounts(c: Counts, live: multiset<string>, ip: Option<string>, m: Limits)
    requires Counting(c, live) && WithinLimits(c, m)
    ensures var (c', v) := Admit(c, ip, m);
            && WithinLimits(c', m)
            && (v == Accepted <==> ip.Some? && |live| < m.maxTotal && live[ip.value] < m.maxPerIP)
            && (v == InvalidIP <==> ip == None)
            && (v == GlobalLimit <==> ip.Some? && |live| >= m.maxTotal)
            && (v == PerIPLimit <==> ip.Some? && |live| < m.maxTotal && live[ip.value] >= m.maxPerIP)
            && if v == Accepted then Counting(c', live + multiset{ip.value}) else c' == c
  {
  }

  // Releasing a live lease takes exactly it out of the bag.
  lemma ReleaseCounts(c: Counts, live: multiset<string>, ip: string, m: Limits)
    requires Counting(c, live) && WithinLimits(c, m) && ip in live
    ensures Counting(Release(c, ip), live - multiset{ip}) && WithinLimits(Release(c, ip), m)
  {
    assert c.perIP[ip] == live[ip];
  }

  // ---- The total is the sum of the per-address counts ---------------------

  ghost function Sum(m: map<string, int>): int
    decreases |m|
  {
    if m == map[] then 0
    else
      var k :| k in m;
      assert |m - {k}| < |m| by { assert m.Keys == (m - {k}).Keys + {k}; }
      m[k] + Sum(m - {k})
  }

  lemma {:induction false} SumIsTotal(perIP: map<string, int>, live: multiset<string>)
    requires forall ip :: ip in perIP <==> ip in live
    requires forall ip :: ip in perIP ==> perIP[ip] == live[ip]
    ensures Sum(perIP) == |live|
    decreases |perIP|
  {
    if perIP == map[] {
      assert live == multiset{};
    } else {
      var k :| k in perIP && Sum(perIP) == perIP[k] + Sum(perIP - {k});
      assert perIP.Keys == (perIP - {k}).Keys + {k};
      SumIsTotal(perIP - {k}, live[k := 0]);
    }
  }

  // ---- Which rejections are logged -----------------------------------------

  predicate ShouldLog(count: bv64) {
    count != 0 && count & (count - 1) == 0
  }

  // Halved until it is odd, it leaves 1.
  predicate PowerOfTwo(count: bv64)
    decreases count
  {
    count == 1 || (count != 0 && count & 1 == 0 && PowerOfTwo(count >> 1))
  }

  lemma Halving(count: bv64)
    ensures count & 1 == 1 ==> (ShouldLog(count) <==> count == 1)
    ensures count != 0 && count & 1 == 0 ==> (ShouldLog(count) <==> ShouldLog(count >> 1)) && count >> 1 != 0
  {
  }

  lemma {:induction false} LogsAtPowersOfTwo(count: bv64)
    ensures ShouldLog(count) <==> PowerOfTwo(count)
    decreases count
  {
    Halving(count);
    if count != 0 && count & 1 == 0 {
      LogsAtPowersOfTwo(count >> 1);
    }
  }

  // ---- The limiter as the program keeps it --------------------------------

  class Limiter {
    const limits: Limits
    var total: int
    var perIP: map<string, int>

    ghost function View(): Counts
      reads this
    {
      Counts(total, perIP)
    }

    constructor (limits: Limits)
      ensures View() == Counts(0, map[]) && this.limits == limits
    {
      this.limits := limits;
      total, perIP := 0, map[];
    }

    method Acquire(ip: Option<string>) returns (verdict: Verdict)
      modifies this
      ensures (View(), verdict) == Admit(old(View()), ip, limits)
    {
      if ip.None? {
        return InvalidIP;
      }
      if total >= limits.maxTotal {
        return GlobalLimit;
      }
      var count := if ip.value in perIP then perIP[ip.value] else 0;
      if count >= limits.maxPerIP {
        return PerIPLimit;
      }
      total := total + 1;
      perIP := perIP[ip.value := count + 1];
      verdict := Accepted;
    }

    method ReleaseSlot(ip: string)
      modifies this
      ensures View() == Release(old(View()), ip)
    {
      var count := if ip in perIP then perIP[ip] else 0;
      if count <= 1 {
        perIP := perIP - {ip};
      } else {
        perIP := perIP[ip := count - 1];
      }
      if total > 0 {
        total := total - 1;
      }
    }
  }
}
