/** Powers of two and 64-bit machine words. */
module Words {
  const TWO64: int := 0x1_0000_0000_0000_0000
  const MAX_INT64: int := 0x7FFF_FFFF_FFFF_FFFF

  /** What of an integer an int64 keeps. */
  function Wrap64(x: int): int {
    (x + 0x8000_0000_0000_0000) % TWO64 - 0x8000_0000_0000_0000
  }

  lemma {:induction false} WrapFits(x: int)
    requires -MAX_INT64 - 1 <= x <= MAX_INT64
    ensures Wrap64(x) == x
  {
  }

  function Pow2(n: nat): (r: nat)
    ensures r > 0
  {
    if n == 0 then 1 else 2 * Pow2(n - 1)
  }

  lemma {:induction false} DoubleProduct(a: int, b: int)
    ensures 2 * (a * b) == (2 * a) * b
  {
  }

  lemma {:induction false} Pow2Adds(m: nat, n: nat)
    ensures Pow2(m + n) == Pow2(m) * Pow2(n)
  {
    if m > 0 {
      Pow2Adds(m - 1, n);
      DoubleProduct(Pow2(m - 1), Pow2(n));
    }
  }

  lemma {:induction false} Doubled(n: nat, p: nat)
    requires Pow2(n) == p
    ensures Pow2(2 * n) == p * p
  {
    Pow2Adds(n, n);
  }

  lemma {:induction false} WordSize(n: nat)
    requires n == 64
    ensures Pow2(n) == TWO64
  {
    var one := n / 64;
    assert Pow2(one) == 2;
    Doubled(one, 2);
    Doubled(2 * one, 4);
    Doubled(4 * one, 16);
    Doubled(8 * one, 256);
    Doubled(16 * one, 0x1_0000);
    Doubled(32 * one, 0x1_0000_0000);
  }

  lemma {:induction false} MultipleIsLarge(e: nat, d: nat)
    requires e > 0
    ensures e * d >= d
  {
    if e > 1 {
      MultipleIsLarge(e - 1, d);
      assert e * d == (e - 1) * d + d;
    }
  }

  lemma {:induction false} Differ(p: int, q: int, d: int)
    ensures (q - p) * d == q * d - p * d
  {
  }

  lemma {:induction false} Remainder(n: nat, d: nat, q: nat, r: nat)
    requires n == q * d + r && r < d
    ensures n % d == r
  {
    var p := n / d;
    assert n == p * d + n % d;
    Differ(p, q, d);
    Differ(q, p, d);
    if p < q {
      MultipleIsLarge(q - p, d);
    } else if q < p {
      MultipleIsLarge(p - q, d);
    }
  }
}
