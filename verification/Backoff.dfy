/**
 Retry delays of the plugin task queue: `BackoffMs << (attempt-1)` on a signed 64-bit
 integer, replaced by the one-hour cap when the shifted value is not in 1..cap.
 */
module Backoff {

  const MAX_BACKOFF_MS: int := 3_600_000
  const TWO_43: int := 0x800_0000_0000
  const TWO_63: int := 0x8000_0000_0000_0000
  const TWO_64: int := 0x1_0000_0000_0000_0000

  function Pow2(n: nat): (r: int)
    ensures r >= 1
  {
    if n == 0 then 1 else 2 * Pow2(n - 1)
  }

  /** The signed 64-bit integer that has the same low 64 bits as x. */
  function Wrap64(x: int): (r: int)
    ensures -0x8000_0000_0000_0000 <= r <= 0x7FFF_FFFF_FFFF_FFFF
    ensures (r - x) % 0x1_0000_0000_0000_0000 == 0
  {
    var m := x % TWO_64;
    if m < TWO_63 then m else m - TWO_64
  }

  /** Shifting left on int64: bits leave at the top, and any count of 64 or more gives 0. */
  function ShiftLeft64(x: int, count: nat): int {
    Wrap64(x * Pow2(count))
  }

  /** The delay before the next attempt. A shift count below zero would be a run-time panic. */
  function RetryDelay(backoffMs: int, attempt: int): (delay: int)
    requires attempt >= 1
    ensures 1 <= delay <= 3_600_000
  {
    var backoff := ShiftLeft64(backoffMs, attempt - 1);
    if backoff <= 0 || backoff > MAX_BACKOFF_MS then MAX_BACKOFF_MS else backoff
  }

  /** The documented delay: exponential growth up to the cap, on unbounded integers. */
  function IdealDelay(backoffMs: int, attempt: int): (delay: int)
    requires attempt >= 1
    ensures delay <= 3_600_000 && delay <= backoffMs * Pow2(attempt - 1)
    ensures delay == 3_600_000 || delay == backoffMs * Pow2(attempt - 1)
  {
    var exact := backoffMs * Pow2(attempt - 1);
    if exact < MAX_BACKOFF_MS then exact else MAX_BACKOFF_MS
  }

  /**
   The one way in which the shift goes wrong: high bits are lost at the top and what
   is left happens to be a small positive number, which passes for a genuine delay.
   */
  predicate LosesBits(backoffMs: int, attempt: int)
    requires attempt >= 1
  {
    var k := attempt - 1;
    && k <= 21
    && backoffMs >= Pow2(64 - k)
    && 0 < (backoffMs % Pow2(64 - k)) * Pow2(k) < MAX_BACKOFF_MS
  }

  lemma {:induction false} Pow2Sum(a: nat, b: nat)
    ensures Pow2(a + b) == Pow2(a) * Pow2(b)
  {
    if a > 0 {
      Pow2Sum(a - 1, b);
      assert Pow2(a + b) == 2 * Pow2(a - 1 + b);
    }
  }

  lemma {:induction false} Pow2Monotone(a: nat, b: nat)
    requires a <= b
    ensures Pow2(a) <= Pow2(b)
  {
    if a < b {
      Pow2Monotone(a, b - 1);
    }
  }

  lemma Pow2Of64()
    ensures Pow2(64) == TWO_64
    ensures Pow2(22) == 4_194_304
  {
    assert Pow2(8) == 256;
    Pow2Sum(8, 8);
    Pow2Sum(16, 6);
    Pow2Sum(16, 16);
    Pow2Sum(32, 32);
  }

  lemma MulMonotone(a: int, b: int, d: int)
    requires a <= b && d >= 0
    ensures a * d <= b * d
  {
  }

  lemma MulSub(a: int, b: int, d: int)
    ensures (a - b) * d == a * d - b * d
  {
  }

  lemma MulSmall(k: int, d: int)
    requires d > 0 && -d < k * d < d
    ensures k == 0
  {
    if k >= 1 {
      MulMonotone(1, k, d);
    } else if k <= -1 {
      MulMonotone(k, -1, d);
    }
  }

  lemma MulRegroup(q: int, d: int, m: int, p: int)
    ensures (q * d + m) * p == d * (p * q) + m * p
  {
  }

  lemma ModUnique(x: int, d: int, q: int, r: int)
    requires d > 0 && x == q * d + r && 0 <= r < d
    ensures x % d == r
  {
    var q', r' := x / d, x % d;
    MulSub(q, q', d);
    MulSmall(q - q', d);
  }

  lemma ModOfProduct(x: int, p: int, q: int)
    requires p > 0 && q > 0
    ensures p * q > 0
    ensures (x * p) % (p * q) == (x % q) * p
    ensures 0 <= (x % q) * p < p * q
  {
    var d, m := x / q, x % q;
    MulMonotone(1, q, p);
    MulMonotone(m, q - 1, p);
    MulSub(q, 1, p);
    MulMonotone(0, m, p);
    MulRegroup(q, d, m, p);
    ModUnique(x * p, p * q, d, m * p);
  }

  /** The low 64 bits of x shifted by k come from the low 64-k bits of x. */
  lemma ShiftKeepsLowBits(x: int, k: nat)
    requires k <= 64
    ensures (x * Pow2(k)) % TWO_64 == (x % Pow2(64 - k)) * Pow2(k)
    ensures 0 <= (x % Pow2(64 - k)) * Pow2(k) < TWO_64
  {
    Pow2Sum(k, 64 - k);
    Pow2Of64();
    ModOfProduct(x, Pow2(k), Pow2(64 - k));
  }

  lemma ShiftOf64OrMore(x: int, k: nat)
    requires k >= 64
    ensures ShiftLeft64(x, k) == 0
  {
    Pow2Sum(64, k - 64);
    Pow2Of64();
    var f := Pow2(k - 64);
    MulRegroup(1, x, 0, TWO_64 * f);
    assert x * Pow2(k) == (x * f) * TWO_64;
    ModUnique(x * Pow2(k), TWO_64, x * f, 0);
  }

  /** What RetryDelay makes of a value whose low 64 bits are w. */
  lemma DelayOfLowBits(backoffMs: int, attempt: int, w: int)
    requires attempt >= 1
    requires w == (backoffMs * Pow2(attempt - 1)) % TWO_64
    ensures RetryDelay(backoffMs, attempt) == if 0 < w < MAX_BACKOFF_MS then w else MAX_BACKOFF_MS
  {
  }

  /** From the 23rd attempt on the delay is the cap, whatever was lost in the shift. */
  lemma LateAttemptsAreCapped(backoffMs: int, attempt: int)
    requires attempt >= 23 && backoffMs >= 1
    ensures RetryDelay(backoffMs, attempt) == IdealDelay(backoffMs, attempt) == 3_600_000
  {
    var k := attempt - 1;
    Pow2Of64();
    Pow2Monotone(22, k);
    MulMonotone(1, backoffMs, Pow2(k));
    if k >= 64 {
      ShiftOf64OrMore(backoffMs, k);
    } else {
      ShiftKeepsLowBits(backoffMs, k);
      var m := backoffMs % Pow2(64 - k);
      if m > 0 {
        MulMonotone(1, m, Pow2(k));
      }
      DelayOfLowBits(backoffMs, attempt, m * Pow2(k));
    }
  }

  /** The computed delay is the documented one exactly when no bits are lost. */
  lemma DelayIsIdealIff(backoffMs: int, attempt: int)
    requires 1 <= backoffMs < TWO_63 && attempt >= 1
    ensures RetryDelay(backoffMs, attempt) == IdealDelay(backoffMs, attempt)
       <==> !LosesBits(backoffMs, attempt)
  {
    var k := attempt - 1;
    if k >= 22 {
      LateAttemptsAreCapped(backoffMs, attempt);
      return;
    }
    var p, q := Pow2(k), Pow2(64 - k);
    ShiftKeepsLowBits(backoffMs, k);
    var w := (backoffMs % q) * p;
    DelayOfLowBits(backoffMs, attempt, w);
    MulMonotone(1, backoffMs, p);
    if backoffMs < q {
      ModUnique(backoffMs, q, 0, backoffMs);
    } else {
      Pow2Sum(64 - k, k);
      Pow2Of64();
      MulMonotone(q, backoffMs, p);
    }
  }

  /** Below 2^43 milliseconds (about 279 years) the delay is always the documented one. */
  lemma DelayIsIdeal(backoffMs: int, attempt: int)
    requires 1 <= backoffMs < TWO_43 && attempt >= 1
    ensures RetryDelay(backoffMs, attempt) == IdealDelay(backoffMs, attempt)
  {
    Pow2Of43();
    if attempt - 1 <= 21 {
      Pow2Monotone(43, 64 - (attempt - 1));
    }
    DelayIsIdealIff(backoffMs, attempt);
  }

  lemma Pow2Of43()
    ensures Pow2(43) == TWO_43 && Pow2(21) == 2_097_152
  {
    Pow2Of64();
    Pow2Sum(43, 21);
    Pow2Sum(21, 1);
    assert Pow2(1) == 2;
  }

  /** The bound is sharp: 2^43 + 1 is rescheduled after 35 minutes instead of an hour. */
  lemma DelayBoundIsSharp()
    ensures RetryDelay(TWO_43 + 1, 22) == 2_097_152
    ensures IdealDelay(TWO_43 + 1, 22) == MAX_BACKOFF_MS
  {
    Pow2Of43();
    ModUnique((TWO_43 + 1) * Pow2(21), TWO_64, 1, 2_097_152);
  }

  lemma CappedMonotone(x: int, y: int, factor: int)
    requires x <= y && factor >= 0
    ensures factor * x < MAX_BACKOFF_MS || factor * y >= MAX_BACKOFF_MS
    ensures factor * x <= factor * y
  {
    MulMonotone(x, y, factor);
  }

  /** A later attempt never waits less, as long as no bits are lost. */
  lemma DelayNeverShrinks(backoffMs: int, attempt: int)
    requires 1 <= backoffMs < TWO_43 && attempt >= 1
    ensures RetryDelay(backoffMs, attempt) <= RetryDelay(backoffMs, attempt + 1)
  {
    hide RetryDelay, Pow2;
    DelayIsIdeal(backoffMs, attempt);
    DelayIsIdeal(backoffMs, attempt + 1);
    Pow2Monotone(attempt - 1, attempt);
    CappedMonotone(Pow2(attempt - 1), Pow2(attempt), backoffMs);
  }
}
