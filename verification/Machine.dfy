/** Bytes, big-endian words and wrapping 64-bit integers. */
module Machine {
  type byte = x: int | 0 <= x < 256
  type Bytes = seq<byte>

  const TWO32: nat := 0x1_0000_0000
  const TWO63: nat := 0x8000_0000_0000_0000
  const TWO64: nat := 0x1_0000_0000_0000_0000

  type int64 = x: int | -0x8000_0000_0000_0000 <= x < 0x8000_0000_0000_0000

  /** Two's complement: the value in range that differs by a multiple of 2^64. */
  function Wrap64(x: int): int64 {
    var r := x % TWO64;
    if r < TWO63 then r else r - TWO64
  }

  function Pow2(k: nat): (p: nat)
    ensures p >= 1
  {
    if k == 0 then 1 else 2 * Pow2(k - 1)
  }

  function Pow256(w: nat): (p: nat)
    ensures p >= 1
  {
    if w == 0 then 1 else 256 * Pow256(w - 1)
  }

  /** The low w bytes of n, most significant first. */
  function BigEndian(n: nat, w: nat): (b: Bytes)
    ensures |b| == w
  {
    if w == 0 then [] else BigEndian(n / 256, w - 1) + [n % 256]
  }

  function Value(b: Bytes): nat {
    if b == [] then 0 else
      var low: int := b[|b| - 1];
      Value(b[..|b| - 1]) * 256 + low
  }

  /** A word that fits is read back. */
  lemma {:induction false} BigEndianRoundTrip(n: nat, w: nat)
    requires n < Pow256(w)
    ensures Value(BigEndian(n, w)) == n
    decreases w
  {
    if w > 0 {
      BigEndianRoundTrip(n / 256, w - 1);
      assert BigEndian(n, w)[..w - 1] == BigEndian(n / 256, w - 1);
    }
  }

  lemma {:induction false} Word32Fits(n: nat)
    requires n < TWO32
    ensures n < Pow256(4)
  {
    assert Pow256(1) == 256 && Pow256(2) == 0x1_0000 && Pow256(3) == 0x100_0000;
  }
}
