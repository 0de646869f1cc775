/**
  The rounding macro of the log, in its machine arithmetic.

  `ALIGN(x, a)` is applied to a 64-bit `x` and a 32-bit `a`, so its mask `~(a - 1)` is a
  32-bit value that is widened with zero bits: the upper half of the sum is always lost.
*/
module LogAlign {
  import opened Words

  const PAGE: nat := 4096

  /** What `mmlog_open` and `files_open_or_create` accept as a chunk size. */
  predicate ValidChunkSize(a: nat) {
    0 < a < WORD32 && a % PAGE == 0
  }

  function Pow2(n: nat): (p: nat)
    ensures p > 0
  {
    if n == 0 then 1 else 2 * Pow2(n - 1)
  }

  /** Bitwise conjunction of two unsigned words. */
  function BitAnd(x: nat, y: nat): nat {
    if x == 0 || y == 0 then 0 else (x % 2) * (y % 2) + 2 * BitAnd(x / 2, y / 2)
  }

  function Align(x: nat, a: nat): nat
    requires ValidChunkSize(a)
  {
    BitAnd((x + a - 1) % WORD64, WORD32 - a)
  }

  /** A mask and its complement split the low `n` bits of a word. */
  lemma {:induction false} MaskSplits(n: nat, x: nat, m: nat)
    requires m < Pow2(n)
    ensures BitAnd(x, m) + BitAnd(x, Pow2(n) - 1 - m) == x % Pow2(n)
    ensures BitAnd(x, m) <= m
  {
    if n == 0 {
    } else {
      var h := Pow2(n - 1);
      var c := Pow2(n) - 1 - m;
      assert c / 2 == h - 1 - m / 2 && c % 2 == 1 - m % 2;
      MaskSplits(n - 1, x / 2, m / 2);
      ModHalves(x, h);
      BitAndUnfold(x, m);
      BitAndUnfold(x, c);
      LowBit(x % 2, m % 2);
    }
  }

  lemma LowBit(b: nat, m: nat)
    requires b < 2 && m < 2
    ensures b * m + b * (1 - m) == b && b * m <= m
  {
  }

  lemma BitAndUnfold(x: nat, y: nat)
    ensures BitAnd(x, y) == (x % 2) * (y % 2) + 2 * BitAnd(x / 2, y / 2)
  {
  }

  lemma ModHalves(x: nat, h: nat)
    requires h > 0
    ensures x % (2 * h) == x % 2 + 2 * ((x / 2) % h)
  {
    var q, r := (x / 2) / h, (x / 2) % h;
    assert x / 2 == q * h + r;
    assert x == q * (2 * h) + (x % 2 + 2 * r) by {
      assert x == 2 * (x / 2) + x % 2;
      assert 2 * (q * h) == q * (2 * h);
    }
    ModUnique(x, 2 * h, q, x % 2 + 2 * r);
  }

  /** Low zero bits of the mask are zero in the result. */
  lemma {:induction false} MaskKeepsZeros(n: nat, x: nat, m: nat)
    requires m % Pow2(n) == 0
    ensures BitAnd(x, m) % Pow2(n) == 0
  {
    if n == 0 {
    } else {
      var h := Pow2(n - 1);
      ModHalves(m, h);
      MaskKeepsZeros(n - 1, x / 2, m / 2);
      BitAndUnfold(x, m);
      var b := BitAnd(x / 2, m / 2);
      ModHalves(2 * b, h);
    }
  }

  lemma Pow2Values()
    ensures Pow2(12) == PAGE && Pow2(32) == WORD32
  {
    assert Pow2(4) == 16;
    assert Pow2(8) == 256;
    assert Pow2(12) == PAGE;
    assert Pow2(16) == 65536;
    assert Pow2(20) == 0x10_0000;
    assert Pow2(24) == 0x100_0000;
    assert Pow2(28) == 0x1000_0000;
    assert Pow2(32) == WORD32;
  }

  /** The mask and its complement, of 32 bits, split a number of 32 bits. */
  lemma MaskedSum(y: nat, a: nat)
    requires 0 < a < WORD32 && y < WORD32
    ensures BitAnd(y, WORD32 - a) == y - BitAnd(y, a - 1) && BitAnd(y, a - 1) <= a - 1
  {
    Pow2Values();
    MaskSplits(32, y, a - 1);
    SmallMod(y, WORD32);
  }

  lemma SmallMod(y: nat, d: nat)
    requires y < d
    ensures y % d == y
  {
  }

  /** Inside the 32-bit bound the macro subtracts the masked-out low part of `x + a - 1`. */
  lemma AlignBelowBound(x: nat, a: nat)
    requires ValidChunkSize(a) && x + a - 1 < WORD32
    ensures x <= Align(x, a) < x + a
  {
    SmallMod(x + a - 1, WORD64);
    MaskedSum(x + a - 1, a);
  }

  lemma AlignBeyondBound(x: nat, a: nat)
    requires ValidChunkSize(a) && x < WORD64 && x + a - 1 >= WORD32
    ensures Align(x, a) < x
  {
    Pow2Values();
    var y := (x + a - 1) % WORD64;
    MaskSplits(32, y, WORD32 - a);
    assert Align(x, a) <= WORD32 - a < x;
  }

  /**
    The rounded size covers the requested end exactly when `end + chunk_size - 1` fits 32 bits;
    past that the macro yields a size smaller than the request.
  */
  lemma AlignCoversIff(x: nat, a: nat)
    requires ValidChunkSize(a) && x < WORD64
    ensures Align(x, a) >= x <==> x + a - 1 < WORD32
    ensures x + a - 1 < WORD32 ==> Align(x, a) < x + a
    ensures Align(x, a) % PAGE == 0
  {
    if x + a - 1 < WORD32 {
      AlignBelowBound(x, a);
    } else {
      AlignBeyondBound(x, a);
    }
    Pow2Values();
    assert (WORD32 - a) % PAGE == 0;
    MaskKeepsZeros(12, (x + a - 1) % WORD64, WORD32 - a);
  }

  lemma AlignIsMultiple(x: nat, j: nat)
    requires ValidChunkSize(Pow2(j))
    ensures Align(x, Pow2(j)) % Pow2(j) == 0
  {
    Pow2Divides(j);
    MaskKeepsZeros(j, (x + Pow2(j) - 1) % WORD64, WORD32 - Pow2(j));
  }

  /** For a power-of-two chunk size the result is the least multiple at or above the request. */
  lemma AlignPowerOfTwo(x: nat, j: nat, q: nat)
    requires ValidChunkSize(Pow2(j)) && x + Pow2(j) - 1 < WORD32
    ensures Align(x, Pow2(j)) % Pow2(j) == 0 && Align(x, Pow2(j)) >= x
    ensures q * Pow2(j) >= x ==> q * Pow2(j) >= Align(x, Pow2(j))
  {
    AlignBelowBound(x, Pow2(j));
    AlignIsMultiple(x, j);
    LeastMultiple(x, Pow2(j), Align(x, Pow2(j)), q);
  }

  lemma LeastMultiple(x: nat, a: nat, r: nat, q: nat)
    requires a > 0 && r % a == 0 && r < x + a
    ensures q * a >= x ==> q * a >= r
  {
    var p := r / a;
    assert r == p * a;
    if q >= p {
      assert q * a == p * a + (q - p) * a;
    } else {
      MulAtLeast(p - q, a);
      assert (p - q) * a == p * a - q * a;
    }
  }

  lemma Pow2Divides(j: nat)
    requires Pow2(j) < WORD32
    ensures (WORD32 - Pow2(j)) % Pow2(j) == 0
  {
    Pow2Values();
    if j >= 32 {
      Pow2Monotone(32, j);
    } else {
      Pow2Splits(j, 32 - j);
      DividesComplement(Pow2(j), Pow2(32 - j), WORD32);
    }
  }

  lemma DividesComplement(a: nat, k: nat, w: nat)
    requires w == a * k && 0 < a && 0 < k
    ensures w >= a && (w - a) % a == 0
  {
    assert (k - 1) * a == a * k - a;
    ModUnique(w - a, a, k - 1, 0);
  }

  lemma {:induction false} Pow2Splits(i: nat, k: nat)
    ensures Pow2(i + k) == Pow2(i) * Pow2(k)
  {
    if k > 0 {
      Pow2Splits(i, k - 1);
      assert Pow2(i + k) == 2 * Pow2(i + k - 1);
    }
  }

  lemma {:induction false} Pow2Monotone(i: nat, k: nat)
    requires i <= k
    ensures Pow2(i) <= Pow2(k)
  {
    if i < k {
      Pow2Monotone(i, k - 1);
    }
  }
}
