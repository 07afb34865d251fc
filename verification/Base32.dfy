/** The recovery key text (internal/crypto/keys.go) against the bit groups of section 6 of RFC 4648. */
module Base32 {
  import opened Machine
  import opened Records

  const ALPHABET: string := "ABCDEFGHIJKLMNOPQRSTUVWXYZ234567"

  type bit = x: int | 0 <= x < 2

  // ---------------------------------------------------------------- the standard, on bits

  /** The low w bits of a number, most significant first. */
  function BitsOf(n: nat, w: nat): (r: seq<bit>)
    ensures |r| == w
  {
    if w == 0 then [] else BitsOf(n / 2, w - 1) + [n % 2]
  }

  function Bits(data: Bytes): (r: seq<bit>)
    ensures |r| == 8 * |data|
  {
    if data == [] then [] else Bits(data[..|data| - 1]) + BitsOf(data[|data| - 1], 8)
  }

  function Number(bits: seq<bit>): nat {
    if bits == [] then 0 else
      var low: int := bits[|bits| - 1];
      2 * Number(bits[..|bits| - 1]) + low
  }

  /** One character per group of five bits, the last group filled with zeros; no padding characters. */
  function Groups(bits: seq<bit>, alphabet: string): string
    requires |alphabet| == 32
  {
    if bits == [] then []
    else if |bits| < 5 then
      var filled := bits + seq(5 - |bits|, i => 0);
      NumberBound(filled);
      [alphabet[Number(filled)]]
    else
      NumberBound(bits[..5]);
      [alphabet[Number(bits[..5])]] + Groups(bits[5..], alphabet)
  }

  lemma {:induction false} NumberBound(bits: seq<bit>)
    ensures Number(bits) < Pow2(|bits|)
    ensures |bits| == 5 ==> Number(bits) < 32
  {
    if bits != [] { NumberBound(bits[..|bits| - 1]); }
    if |bits| == 5 { Powers(); }
  }

  lemma {:induction false} Powers()
    ensures Pow2(0) == 1 && Pow2(1) == 2 && Pow2(2) == 4 && Pow2(3) == 8 && Pow2(4) == 16 && Pow2(5) == 32
    ensures Pow2(6) == 64 && Pow2(7) == 128 && Pow2(8) == 256 && Pow2(9) == 512 && Pow2(10) == 1024
    ensures Pow2(11) == 2048 && Pow2(12) == 4096
  {
  }

  /** x doubled k times. */
  function Shifted(x: nat, k: nat): nat { if k == 0 then x else 2 * Shifted(x, k - 1) }

  lemma {:induction false} ShiftedTimes(x: nat, k: nat)
    ensures Shifted(x, k) == x * Pow2(k)
  {
    if k > 0 {
      ShiftedTimes(x, k - 1);
      Doubled(x, Pow2(k - 1));
    }
  }

  /** Bits behind others only shift them. */
  lemma {:induction false} NumberShifts(a: seq<bit>, b: seq<bit>)
    ensures Number(a + b) == Shifted(Number(a), |b|) + Number(b)
    decreases |b|
  {
    if b == [] {
      assert a + b == a;
    } else {
      var n := |b| - 1;
      NumberShifts(a, b[..n]);
      assert (a + b)[..|a| + n] == a + b[..n];
    }
  }

  lemma {:induction false} NumberConcat(a: seq<bit>, b: seq<bit>)
    ensures Number(a + b) == Number(a) * Pow2(|b|) + Number(b)
  {
    NumberShifts(a, b);
    ShiftedTimes(Number(a), |b|);
  }

  lemma {:induction false} Doubled(x: nat, p: nat)
    ensures x * (2 * p) == 2 * (x * p)
  {
  }

  lemma {:induction false} NumberOfBits(n: nat, w: nat)
    requires n < Pow2(w)
    ensures Number(BitsOf(n, w)) == n
    decreases w
  {
    if w > 0 {
      NumberOfBits(n / 2, w - 1);
      assert BitsOf(n, w)[..w - 1] == BitsOf(n / 2, w - 1);
    }
  }

  lemma {:induction false} NumberOfZeros(k: nat)
    ensures Number(seq(k, i => 0)) == 0
  {
    if k > 0 {
      NumberOfZeros(k - 1);
      var z: seq<bit> := seq(k, i => 0);
      assert z[..k - 1] == seq(k - 1, i => 0);
    }
  }

  lemma {:induction false} BitsAt(data: Bytes, i: nat)
    requires i < |data|
    ensures Bits(data)[8 * i..8 * i + 8] == BitsOf(data[i], 8)
  {
    var n := |data| - 1;
    if i < n {
      BitsAt(data[..n], i);
      assert Bits(data)[8 * i..8 * i + 8] == Bits(data[..n])[8 * i..8 * i + 8];
    } else {
      assert Bits(data)[8 * n..8 * n + 8] == BitsOf(data[n], 8);
    }
  }

  // ---------------------------------------------------------------- the accumulator

  /** The low bits of the accumulator are the bits not yet written. */
  ghost predicate Carries(buffer: int64, pending: seq<bit>) {
    buffer % Pow2(|pending|) == Number(pending)
  }

  /** buffer << 8 | b on 64-bit integers. */
  function Push(buffer: int64, b: byte): int64 {
    var shifted: int := Wrap64(buffer * 256);
    shifted + b
  }

  lemma {:induction false} PushCarries(buffer: int64, pending: seq<bit>, b: byte)
    requires |pending| < 5 && Carries(buffer, pending)
    ensures Carries(Push(buffer, b), pending + BitsOf(b, 8))
  {
    Powers();
    NumberConcat(pending, BitsOf(b, 8));
    NumberOfBits(b, 8);
    PushLow(buffer, b, |pending|, Number(pending));
  }

  lemma {:induction false} PushLow(buffer: int64, b: byte, k: nat, low: nat)
    requires k < 5 && buffer % Pow2(k) == low
    ensures Push(buffer, b) % Pow2(k + 8) == low * 256 + b
  {
    Powers();
    var p := Pow2(k);
    PushAt(buffer, b, p, if k == 0 then 0x100_0000_0000_0000 else if k == 1 then 0x80_0000_0000_0000
                         else if k == 2 then 0x40_0000_0000_0000 else if k == 3 then 0x20_0000_0000_0000
                         else 0x10_0000_0000_0000);
  }

  /** Wrapping drops a multiple of 2^64, which is a multiple of 256 * p. */
  lemma {:induction false} PushAt(buffer: int64, b: byte, p: nat, c: nat)
    requires p >= 1 && p * c == 0x100_0000_0000_0000
    ensures Push(buffer, b) % (256 * p) == buffer % p * 256 + b
  {
    var q, low := buffer / p, buffer % p;
    var w := Wraps(buffer * 256);
    assert buffer == q * p + low;
    assert w * TWO64 == w * (256 * (p * c)) == (w * c) * (256 * p);
    assert q * p * 256 == q * (256 * p);
    assert Push(buffer, b) == (q - w * c) * (256 * p) + (low * 256 + b);
    DivUnique(Push(buffer, b), 256 * p, q - w * c, low * 256 + b);
  }

  /** How many times 2^64 a wrapped value lost. */
  function Wraps(x: int): (w: int)
    ensures Wrap64(x) == x - w * TWO64
  {
    if x % TWO64 < TWO63 then x / TWO64 else x / TWO64 + 1
  }

  lemma {:induction false} DivUnique(x: int, m: int, q: int, r: int)
    requires m >= 1 && x == q * m + r && 0 <= r < m
    ensures x / m == q && x % m == r
  {
    var d := x / m - q;
    assert x == (x / m) * m + x % m;
    assert d * m == (x / m) * m - q * m;
    MultipleGrows(d, m);
  }

  lemma {:induction false} MultipleGrows(d: int, m: int)
    requires m >= 1
    ensures d >= 1 ==> d * m >= m
    ensures d <= -1 ==> d * m <= -m
  {
    if d >= 1 { assert d * m == m + (d - 1) * m; }
    if d <= -1 { assert d * m == -m + (d + 1) * m; }
  }

  /** buffer >> k, rounding down, and the low five bits of it. */
  function Five(buffer: int64, k: nat): (d: nat)
    ensures d < 32
  {
    buffer / Pow2(k) % 32
  }

  lemma {:induction false} FiveTaken(buffer: int64, pending: seq<bit>)
    requires 5 <= |pending| < 13 && Carries(buffer, pending)
    ensures Five(buffer, |pending| - 5) == Number(pending[..5])
    ensures Carries(buffer, pending[5..])
  {
    var k := |pending| - 5;
    assert pending == pending[..5] + pending[5..];
    NumberConcat(pending[..5], pending[5..]);
    NumberBound(pending[..5]);
    NumberBound(pending[5..]);
    SplitLow(buffer, k, Number(pending[..5]), Number(pending[5..]));
  }

  lemma {:induction false} SplitLow(buffer: int64, k: nat, high: nat, low: nat)
    requires high < 32 && low < Pow2(k) && buffer % Pow2(k + 5) == high * Pow2(k) + low
    ensures Five(buffer, k) == high && buffer % Pow2(k) == low
  {
    assert Pow2(k + 1) == 2 * Pow2(k) && Pow2(k + 2) == 4 * Pow2(k) && Pow2(k + 3) == 8 * Pow2(k);
    assert Pow2(k + 5) == 32 * Pow2(k);
    SplitAt(buffer, Pow2(k), high, low);
  }

  lemma {:induction false} SplitAt(x: int, p: nat, high: nat, low: nat)
    requires high < 32 && low < p && x % (32 * p) == high * p + low
    ensures x / p % 32 == high && x % p == low
  {
    var q := x / (32 * p);
    assert x == q * (32 * p) + (high * p + low);
    assert q * (32 * p) + high * p == (32 * q + high) * p;
    DivUnique(x, p, 32 * q + high, low);
  }

  lemma {:induction false} LastFilled(buffer: int64, pending: seq<bit>)
    requires 0 < |pending| < 5 && Carries(buffer, pending)
    ensures Wrap64(buffer * Pow2(5 - |pending|)) % 32 == Number(pending + seq(5 - |pending|, i => 0))
  {
    var k := 5 - |pending|;
    var zeros: seq<bit> := seq(k, i => 0);
    NumberConcat(pending, zeros);
    NumberOfZeros(k);
    FillLow(buffer, k, Number(pending));
  }

  lemma {:induction false} FillLow(buffer: int64, k: nat, low: nat)
    requires 0 < k < 5 && buffer % Pow2(5 - k) == low
    ensures Wrap64(buffer * Pow2(k)) % 32 == low * Pow2(k)
  {
    Powers();
    FillAt(buffer, Pow2(k), Pow2(5 - k));
  }

  lemma {:induction false} FillAt(buffer: int64, p: nat, m: nat)
    requires m >= 1 && p * m == 32
    ensures Wrap64(buffer * p) % 32 == buffer % m * p
  {
    var q, low := buffer / m, buffer % m;
    var w := Wraps(buffer * p);
    assert buffer == q * m + low;
    assert buffer * p == q * (m * p) + low * p;
    LessTimes(low, m, p);
    DivUnique(Wrap64(buffer * p), 32, q - w * 0x800_0000_0000_0000, low * p);
  }

  lemma {:induction false} LessTimes(low: nat, m: nat, p: nat)
    requires low < m && p * m > 0
    ensures low * p < p * m
  {
    assert p * m == low * p + (m - low) * p;
    MultipleGrows(m - low, p);
  }

  /** base32Encode: for data of any length the accumulator may wrap, and the text is still the standard's. */
  method Base32Encode(data: Bytes, alphabet: string) returns (text: string)
    requires |alphabet| == 32
    ensures text == Groups(Bits(data), alphabet)
  {
    text := [];
    var buffer: int64 := 0;
    var bitsLeft: nat := 0;
    ghost var all := Bits(data);
    ghost var rest := all;
    var i := 0;
    while i < |data|
      invariant 0 <= i <= |data| && bitsLeft < 5
      invariant |rest| == bitsLeft + 8 * (|data| - i) && rest[bitsLeft..] == all[8 * i..]
      invariant text + Groups(rest, alphabet) == Groups(all, alphabet)
      invariant Carries(buffer, rest[..bitsLeft])
    {
      TakeByte(data, rest, bitsLeft, i);
      PushCarries(buffer, rest[..bitsLeft], data[i]);
      buffer := Push(buffer, data[i]);
      bitsLeft := bitsLeft + 8;
      text, bitsLeft, rest := Flush(buffer, bitsLeft, text, alphabet, rest);
      i := i + 1;
    }
    assert rest[..bitsLeft] == rest;
    if bitsLeft > 0 {
      LastFilled(buffer, rest);
      text := text + [alphabet[Wrap64(buffer * Pow2(5 - bitsLeft)) % 32]];
    }
  }

  lemma {:induction false} TakeByte(data: Bytes, rest: seq<bit>, k: nat, i: nat)
    requires i < |data| && |rest| == k + 8 * (|data| - i) && rest[k..] == Bits(data)[8 * i..]
    ensures rest[..k + 8] == rest[..k] + BitsOf(data[i], 8)
    ensures rest[k + 8..] == Bits(data)[8 * (i + 1)..]
  {
    BitsAt(data, i);
    NextEight(Bits(data), 8 * i, rest, k);
    assert 8 * (i + 1) == 8 * i + 8;
  }

  lemma {:induction false} NextEight(all: seq<bit>, m: nat, rest: seq<bit>, k: nat)
    requires m + 8 <= |all| && k <= |rest| && rest[k..] == all[m..]
    ensures |rest| >= k + 8 && rest[..k + 8] == rest[..k] + all[m..m + 8] && rest[k + 8..] == all[m + 8..]
  {
    assert |rest| - k == |all| - m;
    assert rest[k..][..8] == all[m..][..8] && rest[k..][8..] == all[m..][8..];
    assert rest[..k + 8] == rest[..k] + rest[k..][..8];
  }

  /** The inner loop: write characters while five bits are there. */
  method Flush(buffer: int64, bitsLeft0: nat, text0: string, alphabet: string, ghost rest0: seq<bit>)
    returns (text: string, bitsLeft: nat, ghost rest: seq<bit>)
    requires |alphabet| == 32 && bitsLeft0 < 13 && bitsLeft0 <= |rest0| && Carries(buffer, rest0[..bitsLeft0])
    ensures bitsLeft < 5 && bitsLeft <= |rest| && |rest| - bitsLeft == |rest0| - bitsLeft0
    ensures rest[bitsLeft..] == rest0[bitsLeft0..] && Carries(buffer, rest[..bitsLeft])
    ensures text + Groups(rest, alphabet) == text0 + Groups(rest0, alphabet)
  {
    text, bitsLeft, rest := text0, bitsLeft0, rest0;
    while bitsLeft >= 5
      invariant bitsLeft < 13 && bitsLeft <= |rest| && |rest| - bitsLeft == |rest0| - bitsLeft0
      invariant rest[bitsLeft..] == rest0[bitsLeft0..] && Carries(buffer, rest[..bitsLeft])
      invariant text + Groups(rest, alphabet) == text0 + Groups(rest0, alphabet)
    {
      FiveTaken(buffer, rest[..bitsLeft]);
      assert rest[..bitsLeft][..5] == rest[..5] && rest[..bitsLeft][5..] == rest[5..][..bitsLeft - 5];
      assert rest[5..][bitsLeft - 5..] == rest[bitsLeft..];
      bitsLeft := bitsLeft - 5;
      text := text + [alphabet[Five(buffer, bitsLeft)]];
      rest := rest[5..];
    }
  }

  // ---------------------------------------------------------------- the recovery key

  /** Groups of four, separated by dashes. */
  function Dashed(s: string): string
    decreases |s|
  {
    if |s| <= 4 then s else s[..4] + "-" + Dashed(s[4..])
  }

  function WithoutDashes(s: string): string {
    if s == [] then [] else if s[0] == '-' then WithoutDashes(s[1..]) else [s[0]] + WithoutDashes(s[1..])
  }

  lemma {:induction false} WithoutDashesConcat(a: string, b: string)
    ensures WithoutDashes(a + b) == WithoutDashes(a) + WithoutDashes(b)
  {
    if a == [] {
      assert a + b == b;
    } else {
      WithoutDashesConcat(a[1..], b);
      var c, x, y := a[0], WithoutDashes(a[1..]), WithoutDashes(b);
      assert (a + b)[0] == c && (a + b)[1..] == a[1..] + b;
      assert [c] + (x + y) == [c] + x + y;
      assert WithoutDashes(a + b) == if c == '-' then x + y else [c] + (x + y);
    }
  }

  lemma {:induction false} NoDashes(s: string)
    requires '-' !in s
    ensures WithoutDashes(s) == s
  {
    if s != [] { NoDashes(s[1..]); }
  }

  lemma {:induction false} DashedStrips(s: string)
    requires '-' !in s
    ensures WithoutDashes(Dashed(s)) == s
    decreases |s|
  {
    if |s| <= 4 {
      NoDashes(s);
    } else {
      DashedStrips(s[4..]);
      NoDashes(s[..4]);
      WithoutDashesConcat(s[..4] + "-", Dashed(s[4..]));
      WithoutDashesConcat(s[..4], "-");
      assert s == s[..4] + s[4..];
    }
  }

  lemma {:induction false} GroupsFromAlphabet(bits: seq<bit>, alphabet: string)
    requires |alphabet| == 32
    ensures |Groups(bits, alphabet)| == (|bits| + 4) / 5
    ensures forall c :: c in Groups(bits, alphabet) ==> c in alphabet
    decreases |bits|
  {
    if |bits| >= 5 {
      GroupsFromAlphabet(bits[5..], alphabet);
      NumberBound(bits[..5]);
      var first := alphabet[Number(bits[..5])];
      assert first in alphabet;
      assert forall c :: c in Groups(bits, alphabet) <==> c == first || c in Groups(bits[5..], alphabet);
    } else if bits != [] {
      var filled := bits + seq(5 - |bits|, i => 0);
      NumberBound(filled);
      assert Groups(bits, alphabet) == [alphabet[Number(filled)]];
      assert alphabet[Number(filled)] in alphabet;
    }
  }

  lemma {:induction false} KeyTextStrips(bits: seq<bit>)
    ensures WithoutDashes(Dashed(Groups(bits, ALPHABET))) == Groups(bits, ALPHABET)
  {
    GroupsFromAlphabet(bits, ALPHABET);
    assert '-' !in ALPHABET;
    DashedStrips(Groups(bits, ALPHABET));
  }

  /** FormatRecoveryKey. */
  method FormatRecoveryKey(key: Bytes) returns (text: string)
    ensures text == Dashed(Groups(Bits(key), ALPHABET))
    ensures WithoutDashes(text) == Groups(Bits(key), ALPHABET)
  {
    var encoded := Base32Encode(key, ALPHABET);
    KeyTextStrips(Bits(key));
    text := [];
    var i := 0;
    assert encoded[0..] == encoded;
    while i < |encoded|
      invariant 0 <= i && Rest(text, encoded, i) == Dashed(encoded)
    {
      var end := if i + 4 < |encoded| then i + 4 else |encoded|;
      RestGoesOn(text, encoded, i);
      if i > 0 { text := text + "-"; }
      text := text + encoded[i..end];
      i := i + 4;
    }
  }

  /** What is written so far and what remains to be written from position i. */
  function Rest(text: string, s: string, i: nat): string {
    if i >= |s| && i > 0 then text else text + (if i > 0 then "-" else "") + Dashed(s[Min(i, |s|)..])
  }

  lemma {:induction false} RestGoesOn(text: string, s: string, i: nat)
    requires i < |s|
    ensures Rest(text + (if i > 0 then "-" else "") + s[i..Min(i + 4, |s|)], s, i + 4) == Rest(text, s, i)
  {
    var dash := if i > 0 then "-" else "";
    var tail := s[i..];
    if |tail| > 4 {
      assert tail[..4] == s[i..i + 4] && tail[4..] == s[i + 4..];
      var group, rest := s[i..i + 4], Dashed(s[i + 4..]);
      assert text + dash + (group + "-" + rest) == text + dash + group + "-" + rest;
    } else {
      assert tail == s[i..Min(i + 4, |s|)];
    }
  }
}
