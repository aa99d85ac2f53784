/** Retry delays (internal/queue/backoff.go) in exact integer nanoseconds. */
module Backoff {

  const SECOND := 1_000_000_000
  const DEFAULT_BASE := 30 * SECOND
  const DEFAULT_MAX := 1800 * SECOND

  function Pow2(n: nat): (p: nat)
    ensures p >= 1
  {
    if n == 0 then 1 else 2 * Pow2(n - 1)
  }

  /** min(maxDelay, base * 2^attempt), a negative attempt counting as 0. */
  function Ceiling(attempt: int, base: int, maxDelay: int): int {
    var upper := base * Pow2(if attempt < 0 then 0 else attempt);
    if upper > maxDelay then maxDelay else upper
  }

  /** What FullJitter can return: anything in [0, Ceiling), or 0 when that range is empty. */
  predicate InRange(delay: int, attempt: int, base: int, maxDelay: int) {
    if Ceiling(attempt, base, maxDelay) <= 0 then delay == 0 else 0 <= delay < Ceiling(attempt, base, maxDelay)
  }

  /** A uniform draw from [0, n); the generator refuses a non-positive n. */
  method Int63n(n: int, random: nat) returns (r: int)
    requires n >= 1
    ensures 0 <= r < n
    ensures random < n ==> r == random
  {
    r := random % n;
  }

  method FullJitter(attempt: int, base: int, maxDelay: int, random: nat) returns (delay: int)
    ensures InRange(delay, attempt, base, maxDelay)
    ensures random < Ceiling(attempt, base, maxDelay) ==> delay == random
  {
    var n := attempt;
    if n < 0 {
      n := 0;
    }
    var upper := base * Pow2(n);
    if upper > maxDelay {
      upper := maxDelay;
    }
    if upper <= 0 {
      return 0;
    }
    delay := Int63n(upper, random);
  }

  /** The ceiling never falls from one attempt to any later one. */
  lemma {:induction false} CeilingMonotone(a: int, b: int, base: int, maxDelay: int)
    requires a <= b && base > 0
    ensures Ceiling(a, base, maxDelay) <= Ceiling(b, base, maxDelay)
    decreases b - a
  {
    if a < b {
      CeilingMonotone(a, b - 1, base, maxDelay);
      if b > 0 {
        assert Pow2(b) == 2 * Pow2(b - 1);
        assert base * Pow2(b - 1) >= 0;
        assert base * Pow2(b) == 2 * (base * Pow2(b - 1));
      }
    }
  }

  lemma AtLeastOne(a: int, b: int)
    requires a >= 1 && b >= 1
    ensures a * b >= 1
  {
  }

  /** Positive tuning, which the deliverer's defaults guarantee, leaves a non-empty range to draw from. */
  lemma CeilingPositive(attempt: int, base: int, maxDelay: int)
    requires base > 0 && maxDelay > 0
    ensures 1 <= Ceiling(attempt, base, maxDelay) <= maxDelay
  {
    AtLeastOne(base, Pow2(if attempt < 0 then 0 else attempt));
  }

  function Sum(s: seq<int>): int {
    if s == [] then 0 else Sum(s[..|s| - 1]) + s[|s| - 1]
  }

  function CeilingSum(n: nat, base: int, maxDelay: int): int {
    if n == 0 then 0 else CeilingSum(n - 1, base, maxDelay) + Ceiling(n - 1, base, maxDelay)
  }

  /** Drawing the delays of attempts 0, 1, 2, ... accrues less than the sum of their ceilings. */
  lemma {:induction false} TotalBelowCeilings(delays: seq<int>, base: int, maxDelay: int)
    requires base > 0 && maxDelay > 0
    requires forall i | 0 <= i < |delays| :: InRange(delays[i], i, base, maxDelay)
    ensures 0 <= Sum(delays) <= CeilingSum(|delays|, base, maxDelay)
    ensures delays != [] ==> Sum(delays) < CeilingSum(|delays|, base, maxDelay)
  {
    if delays != [] {
      var last := |delays| - 1;
      CeilingPositive(last, base, maxDelay);
      assert InRange(delays[last], last, base, maxDelay);
      TotalBelowCeilings(delays[..last], base, maxDelay);
    }
  }

  lemma {:induction false} CeilingSumMonotone(n: nat, m: nat, base: int, maxDelay: int)
    requires base > 0 && maxDelay > 0 && n <= m
    ensures CeilingSum(n, base, maxDelay) <= CeilingSum(m, base, maxDelay)
    decreases m
  {
    if n < m {
      CeilingSumMonotone(n, m - 1, base, maxDelay);
      CeilingPositive(m - 1, base, maxDelay);
    }
  }

  /** With the shipped defaults, the seven waits before an eighth and last attempt total below 3690 s. */
  lemma DefaultTotal()
    ensures CeilingSum(7, DEFAULT_BASE, DEFAULT_MAX) == 3690 * SECOND
  {
    assert Pow2(1) == 2;
    assert Pow2(2) == 4;
    assert Pow2(3) == 8;
    assert Pow2(4) == 16;
    assert Pow2(5) == 32;
    assert Pow2(6) == 64;
    assert forall n: nat | n < 7 ::
        CeilingSum(n + 1, DEFAULT_BASE, DEFAULT_MAX)
        == CeilingSum(n, DEFAULT_BASE, DEFAULT_MAX) + Ceiling(n, DEFAULT_BASE, DEFAULT_MAX);
  }
}
