/** The retry delay of failed transfers (internal/mount/cache/failures.go), in nanoseconds. */
module Backoff {
  import opened Machine

  const SECOND: nat := 1_000_000_000
  const RETRY_BASE: nat := 30_000_000_000
  const RETRY_CAP: nat := 3_600_000_000_000

  /** A left shift of a 64-bit integer by any count. */
  function ShiftLeft(x: int64, k: nat): int64 { if k >= 64 then 0 else Wrap64(x * Pow2(k)) }

  function TransferBackoff(attempts: int): int {
    var n := if attempts < 1 then 1 else attempts;
    var d := ShiftLeft(RETRY_BASE, n - 1);
    if d <= 0 || d > RETRY_CAP then RETRY_CAP else d
  }

  /** min(30 * 2^(n-1), 3600) seconds, computed without overflow. */
  function Ideal(attempts: int): int {
    var n := if attempts < 1 then 1 else attempts;
    var d := RETRY_BASE * Pow2(n - 1);
    if d < RETRY_CAP then d else RETRY_CAP
  }

  lemma {:induction false} Pow2Adds(a: nat, b: nat)
    ensures Pow2(a + b) == Pow2(a) * Pow2(b)
    decreases b
  {
    if b > 0 {
      Pow2Adds(a, b - 1);
      assert Pow2(a + b) == 2 * Pow2(a + (b - 1));
    } else {
      assert Pow2(a) * 1 == Pow2(a);
    }
  }

  lemma {:induction false} Pow2Values()
    ensures Pow2(6) == 64 && Pow2(7) == 128 && Pow2(28) == 0x1000_0000
    ensures Pow2(29) == 0x2000_0000 && Pow2(30) == 0x4000_0000 && Pow2(31) == 0x8000_0000 && Pow2(32) == TWO32
  {
    assert Pow2(1) == 2 && Pow2(2) == 4 && Pow2(3) == 8 && Pow2(4) == 16 && Pow2(5) == 32;
    Pow2Adds(7, 7);
    Pow2Adds(14, 14);
  }

  lemma {:induction false} Pow2Grows(a: nat, b: nat)
    requires a <= b
    ensures Pow2(a) <= Pow2(b)
  {
    if a < b { Pow2Grows(a, b - 1); }
  }

  /** A multiple of 2^42 stays one when it wraps, and no positive one is within the cap. */
  lemma {:induction false} WrappedMultiple(m: int)
    ensures Wrap64(m * 0x400_0000_0000) <= 0 || Wrap64(m * 0x400_0000_0000) > RETRY_CAP
  {
    var x := m * 0x400_0000_0000;
    var q := x / TWO64;
    assert x % TWO64 == (m - q * 0x40_0000) * 0x400_0000_0000;
  }

  /** The shift never lands inside the cap by overflowing. */
  lemma {:induction false} ShiftIsLarge(k: nat)
    requires k >= 7
    ensures ShiftLeft(RETRY_BASE, k) <= 0 || ShiftLeft(RETRY_BASE, k) > RETRY_CAP
  {
    Pow2Values();
    if k <= 28 {
      Pow2Grows(7, k);
      Pow2Grows(k, 28);
    } else if 32 <= k < 64 {
      Pow2Adds(32, k - 32);
      var rest := Pow2(k - 32);
      assert RETRY_BASE * Pow2(k) == (29296875 * rest) * 0x400_0000_0000;
      WrappedMultiple(29296875 * rest);
    }
  }

  /** TransferBackoff is the ideal delay for every attempt count, although its shift wraps. */
  lemma {:induction false} BackoffIsIdeal(attempts: int)
    ensures TransferBackoff(attempts) == Ideal(attempts)
  {
    var k := if attempts < 1 then 0 else attempts - 1;
    Pow2Values();
    if k <= 6 {
      Pow2Grows(k, 6);
    } else {
      Pow2Grows(7, k);
      ShiftIsLarge(k);
    }
  }

  /** It is positive, capped and never falls as attempts grow. */
  lemma {:induction false} BackoffMonotone(a: int, b: int)
    requires a <= b
    ensures RETRY_BASE <= TransferBackoff(a) <= TransferBackoff(b) <= RETRY_CAP
  {
    BackoffIsIdeal(a);
    BackoffIsIdeal(b);
    Pow2Grows(if a < 1 then 0 else a - 1, if b < 1 then 0 else b - 1);
  }
}
