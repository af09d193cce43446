// vlessBondGenerationRetryDelay: exponential back-off with jitter, in nanoseconds.
module RetryDelay {

  const SECOND: nat := 1_000_000_000
  const MAX_DELAY: nat := 30 * SECOND

  function Pow2(k: nat): nat {
    if k == 0 then 1 else 2 * Pow2(k - 1)
  }

  // The delay before jitter: 2^k seconds, at most 30.
  function BaseDelay(attempt: int): nat {
    var k := if attempt < 0 then 0 else attempt;
    if Pow2(k) * SECOND < MAX_DELAY then Pow2(k) * SECOND else MAX_DELAY
  }

  lemma {:induction false} Pow2Grows(j: nat, k: nat)
    requires j <= k
    ensures 1 <= Pow2(j) <= Pow2(k)
    decreases k
  {
    if k > 0 {
      Pow2Grows(if j < k then j else k - 1, k - 1);
    }
  }

  lemma BaseDelayDoubles(i: nat)
    ensures var twice := 2 * BaseDelay(i); BaseDelay(i + 1) == if twice > MAX_DELAY then MAX_DELAY else twice
  {
  }

  lemma BaseDelayStays(i: nat, k: nat)
    requires i <= k && BaseDelay(i) == MAX_DELAY
    ensures BaseDelay(k) == MAX_DELAY
  {
    Pow2Grows(i, k);
  }

  // The doubling loop.
  method BackOff(attempt: int) returns (delay: nat)
    ensures delay == BaseDelay(attempt)
  {
    var k := if attempt < 0 then 0 else attempt;
    delay := SECOND;
    var i := 0;
    while i < k && delay < MAX_DELAY
      invariant 0 <= i <= k
      invariant delay == BaseDelay(i)
    {
      BaseDelayDoubles(i);
      delay := delay * 2;
      if delay > MAX_DELAY {
        delay := MAX_DELAY;
      }
      i := i + 1;
    }
    if i < k {
      BaseDelayStays(i, k);
    }
  }

  // random is what rand.Int63n draws: at most the upper half of the delay. The
  // result lies between half the base delay and the base delay.
  method GenerationRetryDelay(attempt: int, random: nat) returns (delay: nat)
    requires random <= BaseDelay(attempt) - BaseDelay(attempt) / 2
    ensures BaseDelay(attempt) / 2 <= delay <= BaseDelay(attempt)
    ensures delay == BaseDelay(attempt) / 2 + random
    ensures 500_000_000 <= delay <= 30_000_000_000
  {
    var base := BackOff(attempt);
    Pow2Grows(0, if attempt < 0 then 0 else attempt);
    delay := base / 2 + random;
  }

  // 1, 2, 4, 8 and 16 seconds, then 30.
  lemma Delays(attempt: int)
    ensures BaseDelay(attempt) ==
            (if attempt <= 0 then 1 else if attempt == 1 then 2 else if attempt == 2 then 4
             else if attempt == 3 then 8 else if attempt == 4 then 16 else 30) * 1_000_000_000
  {
    assert Pow2(1) == 2 && Pow2(2) == 4 && Pow2(3) == 8 && Pow2(4) == 16 && Pow2(5) == 32;
    if attempt >= 5 {
      Pow2Grows(5, attempt);
    }
  }
}
