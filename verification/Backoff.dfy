/** The delay before the next attempt, in nanoseconds of a 64-bit duration. */
module Backoff {

  const TWO63 := 0x8000_0000_0000_0000
  const TWO64 := 0x1_0000_0000_0000_0000

  newtype Int64 = x: int | -0x8000_0000_0000_0000 <= x < 0x8000_0000_0000_0000

  /** The 64-bit value that stands for `x` when arithmetic wraps around. */
  function Wrap(x: int): (r: int)
    ensures -TWO63 <= r < TWO63
  {
    (x + TWO63) % TWO64 - TWO63
  }

  const SECOND := 1_000_000_000
  const CAP := 15 * 60 * SECOND

  /** The exponent stops growing here. */
  const MAX_DOUBLINGS := 16

  function Pow2(n: nat): (r: nat)
    ensures r >= 1
  {
    if n == 0 then 1 else 2 * Pow2(n - 1)
  }

  function Min(a: int, b: int): int {
    if a <= b then a else b
  }

  function Clamp(n: int): (r: nat)
    ensures r <= MAX_DOUBLINGS
  {
    if n < 0 then 0 else if n > MAX_DOUBLINGS then MAX_DOUBLINGS else n
  }

  /** `base` doubled `n` times, but no more than the cap. */
  function Capped(base: int, n: nat): int {
    Min(base * Pow2(n), CAP)
  }

  /** In wrapping arithmetic a doubled positive number is smaller exactly when it does not fit. */
  lemma DoublingOverflows(d: int)
    requires 0 < d < TWO63
    ensures Wrap(d * 2) < d <==> d * 2 >= TWO63
    ensures d * 2 < TWO63 ==> Wrap(d * 2) == d * 2
  {
  }

  lemma {:induction false} PowersAscend(m: nat, n: nat)
    requires m <= n
    ensures Pow2(m) <= Pow2(n)
  {
    if m < n { PowersAscend(m, n - 1); }
  }

  /** Once over the cap, further doublings stay over it. */
  lemma StaysCapped(base: int, m: nat, n: nat)
    requires base > 0 && m <= n && base * Pow2(m) >= CAP
    ensures Capped(base, n) == CAP
  {
    PowersAscend(m, n);
    assert base * Pow2(n) >= base * Pow2(m);
  }

  /** The loop that both copies of the backoff run. */
  method Double(base: Int64, doublings: nat) returns (r: int)
    requires base > 0
    ensures r == Capped(base as int, doublings)
  {
    var d := base as int;
    for i := 0 to doublings
      invariant 0 < d < TWO63 && d == base as int * Pow2(i)
      invariant i > 0 ==> d <= CAP
    {
      var next := Wrap(d * 2);
      DoublingOverflows(d);
      assert base as int * Pow2(i + 1) == d * 2;
      if next < d {
        StaysCapped(base as int, i + 1, doublings);
        return CAP;
      }
      d := next;
      if d > CAP {
        StaysCapped(base as int, i + 1, doublings);
        return CAP;
      }
    }
    if d > CAP {
      return CAP;
    }
    return d;
  }

  function BaseOr(base: Int64, default: Int64): Int64 {
    if base <= 0 then default else base
  }

  /** The delay before the next publication, after failure number `attempt`. */
  function OutboxDelay(attempt: int, base: Int64): int {
    Capped(BaseOr(base, 1_000_000_000) as int, Clamp(attempt - 1))
  }

  method OutboxPublishBackoff(attempt: int, base: Int64) returns (r: int)
    ensures r == OutboxDelay(attempt, base)
  {
    var n := if attempt < 1 then 0 else attempt - 1;
    r := Double(BaseOr(base, 1_000_000_000), Clamp(n));
  }

  /** The delay before a task is run again, after `n` retries. */
  function RetryDelay(n: int, base: Int64): int {
    Capped(BaseOr(base, 2_000_000_000) as int, Clamp(n))
  }

  method RetryDelayFunc(n: int, base: Int64) returns (r: int)
    ensures r == RetryDelay(n, base)
  {
    r := Double(BaseOr(base, 2_000_000_000), Clamp(n));
  }

  /** Delays are positive, never above the cap, and never fall as failures go on. */
  lemma DelaysAscend(attempt: int, later: int, base: Int64)
    requires attempt <= later
    ensures 0 < OutboxDelay(attempt, base) <= OutboxDelay(later, base) <= CAP
    ensures 0 < RetryDelay(attempt, base) <= RetryDelay(later, base) <= CAP
  {
    CappedAscends(BaseOr(base, 1_000_000_000) as int, Clamp(attempt - 1), Clamp(later - 1));
    CappedAscends(BaseOr(base, 2_000_000_000) as int, Clamp(attempt), Clamp(later));
  }

  lemma CappedAscends(base: int, m: nat, n: nat)
    requires base > 0 && m <= n
    ensures 0 < Capped(base, m) <= Capped(base, n) <= CAP
  {
    PowersAscend(m, n);
    assert 0 < base * Pow2(m) <= base * Pow2(n);
  }

  /** Below the cap each further failure doubles the delay, up to the last doubling. */
  lemma EachFailureDoubles(attempt: int, base: Int64)
    requires 1 <= attempt <= MAX_DOUBLINGS
    ensures OutboxDelay(attempt + 1, base) == Min(2 * OutboxDelay(attempt, base), CAP)
  {
    var b := BaseOr(base, 1_000_000_000) as int;
    assert b * Pow2(attempt) == 2 * (b * Pow2(attempt - 1));
  }

  /** The first failure waits for the base, one second if none is given. After 16 doublings the delay
      stays as it is, and without a base it grows from one second to 512 and is then the cap of 15
      minutes. */
  lemma DelaysInSeconds(attempt: int, base: Int64)
    ensures base > 0 ==> OutboxDelay(1, base) == Min(base as int, 900_000_000_000)
    ensures base <= 0 ==> OutboxDelay(attempt, base) == OutboxDelay(attempt, 1_000_000_000)
    ensures attempt >= 17 ==> OutboxDelay(attempt, base) == OutboxDelay(17, base)
    ensures attempt >= 11 ==> OutboxDelay(attempt, 0) == 900_000_000_000
    ensures OutboxDelay(10, 0) == 512_000_000_000 && OutboxDelay(1, 0) == 1_000_000_000
    ensures OutboxDelay(17, 1) == 65_536
    ensures RetryDelay(0, 0) == 2_000_000_000 && (attempt <= 0 ==> RetryDelay(attempt, base) == RetryDelay(0, base))
  {
    Powers();
    if attempt >= 11 { StaysCapped(1_000_000_000, 10, Clamp(attempt - 1)); }
  }

  lemma Powers()
    ensures Pow2(0) == 1 && Pow2(9) == 512 && Pow2(10) == 1024 && Pow2(16) == 65536
  {
    assert Pow2(5) == 32;
    assert Pow2(10) == 1024;
  }

  /** The two copies agree: retry `n` waits as long as the outbox after failure `n + 1`, whenever
      the base is given. Without one they differ, by their defaults, until both reach the cap. */
  lemma CopiesAgree(n: int, base: Int64)
    ensures RetryDelay(n, base) == OutboxDelay(n + 1, base) <==> base > 0 || SECOND * Pow2(Clamp(n)) >= CAP
  {
    if base <= 0 {
      assert Pow2(Clamp(n)) >= 1;
    }
  }
}
