/** Powers, and the few non-linear facts the other modules lean on. */
module Arithmetic {

  function Pow2(e: nat): (n: int)
    ensures n >= 1
  {
    if e == 0 then 1 else 2 * Pow2(e - 1)
  }

  function Pow10(d: nat): (n: int)
    ensures n >= 1
  {
    if d == 0 then 1 else 10 * Pow10(d - 1)
  }

  lemma PowZero()
    ensures Pow2(0) == 1 && Pow10(0) == 1
  {
  }

  lemma {:induction false} Pow2Add(a: nat, b: nat)
    ensures Pow2(a + b) == Pow2(a) * Pow2(b)
  {
    if b > 0 {
      Pow2Add(a, b - 1);
      assert Pow2(a) * Pow2(b) == 2 * (Pow2(a) * Pow2(b - 1));
    }
  }

  lemma {:induction false} Pow2Grows(a: nat, b: nat)
    requires a <= b
    ensures Pow2(a) <= Pow2(b)
  {
    if a < b {
      Pow2Grows(a, b - 1);
    }
  }

  lemma SmallPowers()
    ensures Pow2(1) == 2 && Pow2(6) == 64 && Pow2(23) == 8388608 && Pow2(24) == 16777216
  {
    assert Pow2(6) == 64;
    Pow2Add(6, 6);
    Pow2Add(12, 12);
  }

  lemma MulMonotone(a: int, b: int, c: int)
    requires a <= b && c >= 0
    ensures a * c <= b * c
  {
    assert (b - a) * c >= 0;
  }

  lemma MulSwap(a: int, b: int, c: int)
    ensures (a * b) * c == (a * c) * b && a * (b * c) == (a * b) * c
  {
  }

  lemma Positive(a: int, b: int)
    requires a >= 1 && b >= 1
    ensures a * b >= 1
  {
  }

  lemma Distribute(a: int, b: int, c: int)
    ensures a * c - b * c == (a - b) * c
  {
  }

  /** Quotient and remainder are unique. */
  lemma DivIs(n: int, den: int, q: int, r: int)
    requires 0 <= r < den && n == q * den + r
    ensures n / den == q && n % den == r
  {
    var q', r' := n / den, n % den;
    assert n == q' * den + r';
    if q > q' {
      MulMonotone(q' + 1, q, den);
    } else if q < q' {
      MulMonotone(q + 1, q', den);
    }
  }
}
