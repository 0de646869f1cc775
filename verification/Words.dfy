/** Machine words, bytes, and the division facts the models share. */
module Words {

  const WORD32: nat := 0x1_0000_0000
  const WORD64: nat := 0x1_0000_0000_0000_0000

  type byte = b: int | 0 <= b < 256

  datatype Option<+T> = None | Some(value: T)

  lemma MulAtLeast(k: int, d: nat)
    requires k >= 1
    ensures k * d >= d
  {
  }

  lemma QuotientGap(a: int, b: int, d: nat, r: int, t: int)
    requires a * d + r == b * d + t
    requires 0 <= r < d && 0 <= t < d
    ensures a <= b
  {
    assert (a - b) * d == a * d - b * d;
    if a > b {
      MulAtLeast(a - b, d);
    }
  }

  lemma ModUnique(x: nat, d: nat, q: nat, r: nat)
    requires x == q * d + r && r < d
    ensures x / d == q && x % d == r
  {
    var p, t := x / d, x % d;
    assert x == p * d + t;
    QuotientGap(p, q, d, t, r);
    QuotientGap(q, p, d, r, t);
  }

  /** A position or counter wrapped at `n`; the same as `x % n`. */
  function Wrap(x: nat, n: nat): (w: nat)
    requires n > 0
    ensures w < n
  {
    if x < n then x else Wrap(x - n, n)
  }

  lemma {:induction false} WrapIsMod(x: nat, n: nat)
    requires n > 0
    ensures Wrap(x, n) == x % n
  {
    if x < n {
      ModUnique(x, n, 0, x);
    } else {
      WrapIsMod(x - n, n);
      var q := (x - n) / n;
      assert (q + 1) * n == q * n + n;
      ModUnique(x, n, q + 1, (x - n) % n);
    }
  }

  lemma {:induction false} WrapAdd(x: nat, k: nat, n: nat)
    requires n > 0
    ensures Wrap(Wrap(x, n) + k, n) == Wrap(x + k, n)
  {
    if x >= n {
      WrapAdd(x - n, k, n);
    }
  }
}
