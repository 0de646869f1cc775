/** Eight bytes loaded as one little-endian word, and what masking its high bytes compares. */
module MaskedWords {

  function Pack(b0: bv8, b1: bv8, b2: bv8, b3: bv8, b4: bv8, b5: bv8, b6: bv8, b7: bv8): bv64 {
    (b0 as bv64) | ((b1 as bv64) << 8) | ((b2 as bv64) << 16) | ((b3 as bv64) << 24) |
    ((b4 as bv64) << 32) | ((b5 as bv64) << 40) | ((b6 as bv64) << 48) | ((b7 as bv64) << 56)
  }

  function Load(s: seq<bv8>): bv64
    requires |s| == 8
  {
    Pack(s[0], s[1], s[2], s[3], s[4], s[5], s[6], s[7])
  }

  /** The mask that keeps the first `n` bytes. */
  const MASK: seq<bv64> := [
    0x0, 0xff, 0xffff, 0xff_ffff, 0xffff_ffff, 0xff_ffff_ffff, 0xffff_ffff_ffff, 0xff_ffff_ffff_ffff,
    0xffff_ffff_ffff_ffff
  ]

  /** The first `n` bytes, padded with zeros. */
  function Cut(s: seq<bv8>, n: nat): (c: seq<bv8>)
    requires |s| == 8
    ensures |c| == 8 && forall k :: 0 <= k < 8 ==> c[k] == if k < n then s[k] else 0
  {
    seq(8, k requires 0 <= k < 8 => if k < n then s[k] else 0)
  }

  lemma PackInjective(a0: bv8, a1: bv8, a2: bv8, a3: bv8, a4: bv8, a5: bv8, a6: bv8, a7: bv8,
                      c0: bv8, c1: bv8, c2: bv8, c3: bv8, c4: bv8, c5: bv8, c6: bv8, c7: bv8)
    ensures Pack(a0, a1, a2, a3, a4, a5, a6, a7) == Pack(c0, c1, c2, c3, c4, c5, c6, c7) <==>
            a0 == c0 && a1 == c1 && a2 == c2 && a3 == c3 && a4 == c4 && a5 == c5 && a6 == c6 && a7 == c7
  {
  }

  lemma LoadInjective(a: seq<bv8>, c: seq<bv8>)
    requires |a| == |c| == 8
    ensures Load(a) == Load(c) <==> a == c
  {
    PackInjective(a[0], a[1], a[2], a[3], a[4], a[5], a[6], a[7], c[0], c[1], c[2], c[3], c[4], c[5], c[6], c[7]);
  }

  /** Masking with `m` keeps exactly the first `n` bytes. */
  predicate Keeps(s: seq<bv8>, n: nat, m: bv64)
    requires |s| == 8
  {
    Load(s) & m == Load(Cut(s, n))
  }

  /** A word of `n` low bytes of ones. */
  function Ones(n: nat): (s: seq<bv8>)
    ensures |s| == 8 && forall k :: 0 <= k < 8 ==> s[k] == if k < n then 0xff else 0
  {
    seq(8, k requires 0 <= k < 8 => if k < n then 0xff else 0)
  }

  lemma MasksAreOnes()
    ensures MASK[0] == Pack(0, 0, 0, 0, 0, 0, 0, 0)
    ensures MASK[1] == Pack(0xff, 0, 0, 0, 0, 0, 0, 0)
    ensures MASK[2] == Pack(0xff, 0xff, 0, 0, 0, 0, 0, 0)
    ensures MASK[3] == Pack(0xff, 0xff, 0xff, 0, 0, 0, 0, 0)
    ensures MASK[4] == Pack(0xff, 0xff, 0xff, 0xff, 0, 0, 0, 0)
    ensures MASK[5] == Pack(0xff, 0xff, 0xff, 0xff, 0xff, 0, 0, 0)
    ensures MASK[6] == Pack(0xff, 0xff, 0xff, 0xff, 0xff, 0xff, 0, 0)
    ensures MASK[7] == Pack(0xff, 0xff, 0xff, 0xff, 0xff, 0xff, 0xff, 0)
    ensures MASK[8] == Pack(0xff, 0xff, 0xff, 0xff, 0xff, 0xff, 0xff, 0xff)
  {
  }

  lemma MaskIsOnes(n: nat)
    requires n <= 8
    ensures MASK[n] == Load(Ones(n))
  {
    MasksAreOnes();
  }

  /** Words are combined byte by byte. */
  lemma PackAnd(a0: bv8, a1: bv8, a2: bv8, a3: bv8, a4: bv8, a5: bv8, a6: bv8, a7: bv8,
                c0: bv8, c1: bv8, c2: bv8, c3: bv8, c4: bv8, c5: bv8, c6: bv8, c7: bv8)
    ensures Pack(a0, a1, a2, a3, a4, a5, a6, a7) & Pack(c0, c1, c2, c3, c4, c5, c6, c7) ==
            Pack(a0 & c0, a1 & c1, a2 & c2, a3 & c3, a4 & c4, a5 & c5, a6 & c6, a7 & c7)
  {
  }

  lemma ByteAnd(b: bv8)
    ensures b & 0xff == b && b & 0 == 0
  {
  }

  function And(a: seq<bv8>, c: seq<bv8>): (r: seq<bv8>)
    requires |a| == |c| == 8
    ensures |r| == 8 && forall k :: 0 <= k < 8 ==> r[k] == a[k] & c[k]
  {
    seq(8, k requires 0 <= k < 8 => a[k] & c[k])
  }

  lemma LoadAnd(a: seq<bv8>, c: seq<bv8>)
    requires |a| == |c| == 8
    ensures Load(a) & Load(c) == Load(And(a, c))
  {
    PackAnd(a[0], a[1], a[2], a[3], a[4], a[5], a[6], a[7], c[0], c[1], c[2], c[3], c[4], c[5], c[6], c[7]);
  }

  lemma AndOnes(s: seq<bv8>, n: nat)
    requires |s| == 8
    ensures And(s, Ones(n)) == Cut(s, n)
  {
    forall k | 0 <= k < 8
      ensures And(s, Ones(n))[k] == Cut(s, n)[k]
    {
      ByteAnd(s[k]);
    }
  }

  lemma OnesKeep(s: seq<bv8>, n: nat)
    requires |s| == 8 && n <= 8
    ensures Keeps(s, n, Load(Ones(n)))
  {
    LoadAnd(s, Ones(n));
    AndOnes(s, n);
  }

  lemma MaskKeeps(s: seq<bv8>, n: nat)
    requires |s| == 8 && n <= 8
    ensures Keeps(s, n, MASK[n])
  {
    OnesKeep(s, n);
    MaskIsOnes(n);
  }

  /** `s` and `c` agree on their first `n` bytes. */
  predicate SamePrefix(s: seq<bv8>, c: seq<bv8>, n: nat) {
    n <= |s| && n <= |c| && forall k :: 0 <= k < n ==> s[k] == c[k]
  }

  /** Eight bytes, all zero from the `n`th on. */
  predicate ZeroFrom(c: seq<bv8>, n: nat) {
    |c| == 8 && n <= 8 && forall k :: n <= k < 8 ==> c[k] == 0
  }

  lemma CutEquals(s: seq<bv8>, c: seq<bv8>, n: nat)
    requires |s| == 8 && ZeroFrom(c, n)
    ensures Cut(s, n) == c <==> SamePrefix(s, c, n)
  {
  }

  /** A masked window equals the word of a zero-padded code exactly when its first bytes are the code. */
  lemma MaskedMatch(s: seq<bv8>, c: seq<bv8>, n: nat)
    requires |s| == 8 && ZeroFrom(c, n)
    ensures Load(s) & MASK[n] == Load(c) <==> SamePrefix(s, c, n)
  {
    MaskKeeps(s, n);
    LoadInjective(Cut(s, n), c);
    CutEquals(s, c, n);
  }

  /** `x` is the word of the eight bytes `w`. */
  predicate IsWord(x: bv64, w: seq<bv8>) {
    |w| == 8 && x == Load(w)
  }

  /** `x` equals `y` in its first `n` bytes, `y` being zero in the others. */
  predicate MaskedEquals(x: bv64, y: bv64, n: nat) {
    n <= 8 && x & MASK[n] == y
  }

  lemma MaskedWordMatch(x: bv64, s: seq<bv8>, y: bv64, c: seq<bv8>, n: nat)
    requires IsWord(x, s) && IsWord(y, c) && ZeroFrom(c, n)
    ensures MaskedEquals(x, y, n) <==> SamePrefix(s, c, n)
  {
    MaskedMatch(s, c, n);
  }
}
