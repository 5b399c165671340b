/**
 * Prices cross the market feed as IEEE binary32 (section 3.3 of IEEE 754-2008)
 * and are printed back to the instrument's own decimals. This is exactly when
 * that recovers the exchange's price.
 *
 * Every finite binary32 is a whole number of 2^-149, so its value is kept as
 * an integer count of that unit and nothing here rounds on its own account.
 */
module Float32 {
  import opened Arithmetic
  import opened Bytes

  const UNIT_EXPONENT: nat := 149
  const MAX_SHIFT: nat := 253

  function Unit(): (n: int)
    ensures n >= 1
  {
    Pow2(UNIT_EXPONENT)
  }

  predicate IsScaled(y: int, m: int, shift: nat)
  {
    -Pow2(24) < m < Pow2(24) && shift <= MAX_SHIFT && y == m * Pow2(shift)
  }

  /** The finite binary32 values: up to 24 significant bits, exponents -149 to 104. */
  ghost predicate IsBinary32(y: int)
  {
    exists m: int, shift: nat :: IsScaled(y, m, shift)
  }

  function Abs(x: int): (n: int)
    ensures n >= 0
  {
    if x < 0 then -x else x
  }

  /** How far the binary32 `y` is from the price k / 10^d, in units of 2^-149 / 10^d. */
  function Error(k: int, d: nat, y: int): int
  {
    Abs(k * Unit() - y * Pow10(d))
  }

  /** `y` is a binary32 as near to the price k / 10^d as any; on a tie either neighbour will do. */
  ghost predicate Nearest(k: int, d: nat, y: int)
  {
    IsBinary32(y) && forall z :: IsBinary32(z) ==> Error(k, d, y) <= Error(k, d, z)
  }

  /** n / den rounded half to even, as fixed-point formatting of a float does. */
  function RoundHalfEven(n: int, den: int): int
    requires den > 0
  {
    var below, rest := n / den, n % den;
    if 2 * rest < den || (2 * rest == den && below % 2 == 0) then below else below + 1
  }

  /**
   * Rounding gives the one whole number no further than half away, and of two
   * as near the even one.
   */
  lemma {:induction false} RoundsToNearestEven(n: int, den: int, r: int)
    requires den > 0
    ensures RoundHalfEven(n, den) == r <==>
      && -den <= 2 * (n - r * den) <= den
      && (2 * (n - r * den) == den || 2 * (n - r * den) == -den ==> r % 2 == 0)
  {
    var below, rest := n / den, n % den;
    assert n == below * den + rest;
    var gap := n - r * den;
    assert gap == (below - r) * den + rest;
    if r <= below - 1 {
      MulMonotone(1, below - r, den);
      if r < below - 1 {
        MulMonotone(2, below - r, den);
      }
    } else if r >= below + 1 {
      MulMonotone(1, r - below, den);
      if r > below + 1 {
        MulMonotone(2, r - below, den);
      }
    }
  }

  /** `to_price`: the price printed to `d` decimals, counted in its last decimal. */
  function ToPrice(y: int, d: nat): int
  {
    RoundHalfEven(y * Pow10(d), Unit())
  }

  // ----- the bit patterns on the wire --------------------------------------

  /** A finite value's sign, 8-bit exponent and 23-bit fraction. Infinities and NaNs have none. */
  predicate Finite(bits: u32)
  {
    (bits / 0x80_0000) % 0x100 != 0xFF
  }

  function ValueOf(bits: u32): (y: int)
    requires Finite(bits)
  {
    var fraction, exponent := bits % 0x80_0000, (bits / 0x80_0000) % 0x100;
    var magnitude :=
      if exponent == 0 then fraction else (0x80_0000 + fraction) * Pow2(exponent - 1);
    if bits / 0x8000_0000 == 0 then magnitude else -magnitude
  }

  lemma BitsAreBinary32(bits: u32)
    requires Finite(bits)
    ensures IsBinary32(ValueOf(bits))
  {
    SmallPowers();
    hide Pow2;
    var fraction, exponent := bits % 0x80_0000, (bits / 0x80_0000) % 0x100;
    var m := if exponent == 0 then fraction else 0x80_0000 + fraction;
    var shift := if exponent == 0 then 0 else exponent - 1;
    PowZero();
    var signed := if bits / 0x8000_0000 == 0 then m else -m;
    assert IsScaled(ValueOf(bits), signed, shift);
  }

  /** A magnitude with its leading bit in place, or at the smallest exponent. */
  lemma {:induction false} Normalise(m: nat, shift: nat) returns (m': nat, shift': nat)
    requires m < Pow2(24)
    ensures m' * Pow2(shift') == m * Pow2(shift) && shift' <= shift && m' < Pow2(24)
    ensures m' >= Pow2(23) || shift' == 0
    decreases shift
  {
    SmallPowers();
    if m >= Pow2(23) || shift == 0 {
      m', shift' := m, shift;
    } else {
      assert Pow2(shift) == 2 * Pow2(shift - 1);
      MulSwap(m, 2, Pow2(shift - 1));
      assert (2 * m) * Pow2(shift - 1) == m * Pow2(shift);
      m', shift' := Normalise(2 * m, shift - 1);
    }
  }

  lemma Fields(sign: int, exponent: int, fraction: int) returns (bits: u32)
    requires 0 <= sign <= 1 && 0 <= exponent < 0x100 && 0 <= fraction < 0x80_0000
    ensures bits % 0x80_0000 == fraction && (bits / 0x80_0000) % 0x100 == exponent && bits / 0x8000_0000 == sign
  {
    bits := sign * 0x8000_0000 + exponent * 0x80_0000 + fraction;
    assert bits / 0x80_0000 == sign * 0x100 + exponent;
  }

  /** Every value called binary32 here has a bit pattern: the two definitions agree. */
  lemma Binary32HasBits(y: int) returns (bits: u32)
    requires IsBinary32(y)
    ensures Finite(bits) && ValueOf(bits) == y
  {
    SmallPowers();
    PowZero();
    hide Pow2;
    var m: int, shift: nat :| IsScaled(y, m, shift);
    var m', shift' := Normalise(Abs(m), shift);
    assert Abs(y) == m' * Pow2(shift') by {
      SignedProduct(m, Pow2(shift));
    }
    var sign := if y < 0 then 1 else 0;
    if m' < 0x80_0000 {
      bits := Fields(sign, 0, m');
    } else {
      bits := Fields(sign, shift' + 1, m' - 0x80_0000);
    }
  }

  lemma SignedProduct(m: int, p: int)
    requires p >= 1
    ensures Abs(m * p) == Abs(m) * p
  {
    if m < 0 {
      MulMonotone(m, -1, p);
      assert (-m) * p == -(m * p);
    } else {
      MulMonotone(0, m, p);
    }
  }

  // ----- arithmetic --------------------------------------------------------

  /** The nearest multiple of den to n, for either sign of n. */
  lemma Nearby(n: int, den: int) returns (m: int)
    requires den > 0
    ensures 2 * Abs(n - m * den) <= den
  {
    m := (2 * n + den) / (2 * den);
    var rest := (2 * n + den) % (2 * den);
    assert 2 * n + den == m * (2 * den) + rest;
    assert m * (2 * den) == 2 * (m * den);
  }

  lemma QuotientBelow(n: int, m: int, den: int, bound: int)
    requires den > 0 && 2 * Abs(n - m * den) <= den && -(bound * den) < n < bound * den
    ensures -bound <= m <= bound
  {
    if m > bound {
      MulMonotone(bound + 1, m, den);
    }
    if m < -bound {
      MulMonotone(m, -bound - 1, den);
    }
  }

  lemma {:induction false} RoundsTo(n: int, k: int, den: int)
    requires den > 0 && 2 * Abs(k * den - n) < den
    ensures RoundHalfEven(n, den) == k
  {
    var rest := n - k * den;
    if rest >= 0 {
      DivIs(n, den, k, rest);
    } else {
      assert n == (k - 1) * den + (rest + den);
      DivIs(n, den, k - 1, rest + den);
    }
  }

  // ----- recovery ----------------------------------------------------------

  /** Below 2^E the grid of step 2^(E-24) is all binary32. */
  lemma GridIsBinary32(m: int, E: nat)
    requires E < 24 && -Pow2(24) <= m <= Pow2(24)
    ensures IsBinary32(m * Pow2(E + 125))
  {
    hide Pow2;
    if -Pow2(24) < m < Pow2(24) {
      assert IsScaled(m * Pow2(E + 125), m, E + 125);
    } else {
      var half := if m > 0 then Pow2(23) else -Pow2(23);
      Pow2Add(23, 1);
      Pow2Add(E + 125, 1);
      SmallPowers();
      MulSwap(half, 2, Pow2(E + 125));
      assert IsScaled(m * Pow2(E + 125), half, E + 126);
    }
  }

  /** The grid's step is narrower than one decimal, and the price lies inside 2^24 steps. */
  lemma Widths(k: int, e: int, p: int, significand: int, low: int, unit: int, den: int)
    requires e >= 1 && p >= 1 && low >= 1 && unit == significand * low && den == (e * low) * p
    requires e * p < significand && -(e * p) < k < e * p
    ensures 0 < den < unit && -(significand * den) < k * unit < significand * den
  {
    var bound := e * p;
    MulSwap(e, low, p);
    assert den == bound * low;
    Positive(e, p);
    Positive(bound, low);
    MulMonotone(bound + 1, significand, low);
    assert significand * den == bound * unit by {
      MulSwap(significand, bound, low);
      MulSwap(bound, significand, low);
    }
    ProductInside(k, bound, unit);
  }

  lemma ProductInside(k: int, bound: int, unit: int)
    requires -bound < k < bound && unit > 0
    ensures -(bound * unit) < k * unit < bound * unit
  {
    MulMonotone(k + 1, bound, unit);
    MulMonotone(-bound + 1, k, unit);
  }

  lemma ExponentBound(E: nat, p: int)
    requires p >= 1 && Pow2(E) * p < Pow2(24)
    ensures E < 24
  {
    hide Pow2;
    if E >= 24 {
      Pow2Grows(24, E);
      MulMonotone(1, p, Pow2(E));
    }
  }

  /** Some binary32 is within half a decimal of the price. */
  lemma {:induction false} Neighbour(k: int, d: nat, E: nat) returns (z: int)
    requires Pow2(E) * Pow10(d) < Pow2(24)
    requires -(Pow2(E) * Pow10(d)) < k < Pow2(E) * Pow10(d)
    ensures IsBinary32(z) && 2 * Error(k, d, z) < Unit() && ToPrice(z, d) == k
  {
    hide Pow2, Pow10, RoundHalfEven, IsBinary32;
    var p, step := Pow10(d), Pow2(E + 125);
    ExponentBound(E, p);
    Pow2Add(E, 125);
    Pow2Add(24, 125);
    assert Unit() == Pow2(24) * Pow2(125);
    var n, den := k * Unit(), step * p;
    Widths(k, Pow2(E), p, Pow2(24), Pow2(125), Unit(), den);
    var m := Nearby(n, den);
    QuotientBelow(n, m, den, Pow2(24));
    GridIsBinary32(m, E);
    z := m * step;
    MulSwap(m, step, p);
    RoundsTo(z * p, k, Unit());
  }

  /**
   * Every price of `d` decimals below 2^E survives the wire, provided
   * 2^E * 10^d < 2^24, whichever neighbour the sender takes on a tie.
   */
  lemma {:induction false} PriceSurvives(k: int, d: nat, E: nat, y: int)
    requires Pow2(E) * Pow10(d) < Pow2(24)
    requires -(Pow2(E) * Pow10(d)) < k < Pow2(E) * Pow10(d)
    requires Nearest(k, d, y)
    ensures ToPrice(y, d) == k
  {
    hide Pow2, Pow10, RoundHalfEven, IsBinary32;
    var z := Neighbour(k, d, E);
    RoundsTo(y * Pow10(d), k, Unit());
  }

  /** From any binary32 there is a way down to one that is nearest. */
  lemma {:induction false} NearestBelow(k: int, d: nat, y: int) returns (best: int)
    requires IsBinary32(y)
    ensures Nearest(k, d, best) && Error(k, d, best) <= Error(k, d, y)
    decreases Error(k, d, y)
  {
    hide IsBinary32, Unit, Pow10;
    if z :| IsBinary32(z) && Error(k, d, z) < Error(k, d, y) {
      best := NearestBelow(k, d, z);
    } else {
      best := y;
    }
  }

  /** So every price, of any decimals, has a nearest binary32 for the sender to take. */
  lemma EveryPriceHasANearest(k: int, d: nat)
    ensures exists y :: Nearest(k, d, y)
  {
    hide Nearest;
    assert IsScaled(0, 0, 0);
    var y := NearestBelow(k, d, 0);
  }

  // ----- tightness ---------------------------------------------------------

  lemma SmallShift(y: int, m: int, s: nat, E: nat)
    requires IsScaled(y, m, s) && s < E + 125
    ensures y < Pow2(23) * Pow2(E + 125)
  {
    hide Pow2;
    SmallPowers();
    Pow2Add(E + 124, 1);
    MulSwap(Pow2(23), 2, Pow2(E + 124));
    Pow2Grows(s, E + 124);
    MulMonotone(m, Pow2(24) - 1, Pow2(s));
    MulMonotone(Pow2(s), Pow2(E + 124), Pow2(24) - 1);
  }

  /** A binary32 of at least half of 2^E lies on the grid of step 2^(E-24). */
  lemma {:induction false} OnGrid(y: int, E: nat) returns (c: int)
    requires IsBinary32(y) && y >= Pow2(23) * Pow2(E + 125)
    ensures y == c * Pow2(E + 125)
  {
    hide Pow2;
    var m: int, s: nat :| IsScaled(y, m, s);
    if s < E + 125 {
      SmallShift(y, m, s, E);
    } else {
      Pow2Add(E + 125, s - (E + 125));
      c := m * Pow2(s - (E + 125));
      MulSwap(m, Pow2(s - (E + 125)), Pow2(E + 125));
    }
  }

  /** 131072.01 has one nearest binary32, 131072.015625. */
  lemma {:induction false} OnlyNearest(y: int)
    requires Nearest(13107201, 2, y)
    ensures y == 8388609 * Pow2(143)
  {
    hide Pow2, IsBinary32;
    var g := Pow2(143);
    Pow2Add(143, 6);
    SmallPowers();
    assert Unit() == 64 * g && Pow10(2) == 100;
    Representable8388609(g);
    assert Error(13107201, 2, 8388609 * g) == 36 * g;
    var c := OnGrid(y, 18);
    if c > 8388609 {
      MulMonotone(8388610, c, g);
    } else if c < 8388609 {
      MulMonotone(c, 8388608, g);
    }
  }

  /**
   * The bound at two decimals is 2^17: 131072.01 is the first price past it,
   * its nearest binary32 exists, and that prints as 131072.02.
   */
  lemma PaiseFailPast131072()
    ensures Nearest(13107201, 2, 8388609 * Pow2(143))
    ensures ToPrice(8388609 * Pow2(143), 2) == 13107202
  {
    hide Pow2, IsBinary32, Nearest;
    EveryPriceHasANearest(13107201, 2);
    var y :| Nearest(13107201, 2, y);
    OnlyNearest(y);
    var g := Pow2(143);
    Pow2Add(143, 6);
    SmallPowers();
    assert Unit() == 64 * g && Pow10(2) == 100;
    DivIs(y * 100, 64 * g, 13107201, 36 * g);
  }

  lemma Representable8388609(g: int)
    requires g == Pow2(143)
    ensures IsBinary32(8388609 * g)
  {
    hide Pow2;
    SmallPowers();
    assert IsScaled(8388609 * g, 8388609, 143);
  }

  /** What a float must satisfy to print as k. */
  lemma PrintsOnlyNearby(y: int, k: int, d: nat)
    requires ToPrice(y, d) == k
    ensures 2 * Error(k, d, y) <= Unit()
  {
    hide Pow2, Pow10;
    var n, den := y * Pow10(d), Unit();
    assert n == (n / den) * den + n % den;
    assert k * den == (n / den) * den || k * den == (n / den) * den + den;
  }

  /** `k` printed at `d` decimals is what some binary32 prints as. */
  ghost predicate Representable(k: int, d: nat)
  {
    exists y :: IsBinary32(y) && ToPrice(y, d) == k
  }

  /**
   * With T = 2^24 and T + S decimals below 2^E, the J-th decimal past the
   * middle is more than half a decimal from every grid point but, on an exact
   * tie, the (J-1)-th.
   */
  lemma GridMisses(J: int, S: int, i: int, half: int)
    requires S >= 1 && half >= 1 && J >= 1 && (J - 1) * S <= half < J * S
    ensures 2 * Abs((J - i) * (2 * half) - i * S) <= 2 * half ==> i == J - 1 && (J - 1) * S == half
    ensures (J - 1) * S == half && 2 * Abs((J - 1 - i) * (2 * half) - i * S) <= 2 * half ==> i == J - 1
  {
    if i >= J {
      MulMonotone(J, i, S);
      MulMonotone(J - i, 0, 2 * half);
    } else if i < J - 1 {
      MulMonotone(i, J - 2, S);
      MulMonotone(2, J - i, 2 * half);
      MulMonotone(1, J - 1 - i, 2 * half);
      assert (J - 1) * S == (J - 2) * S + S;
    }
  }

  /** A binary32 that prints as the j-th decimal past half of 2^E, in grid coordinates. */
  lemma {:induction false} InGrid(y: int, j: int, d: nat, E: nat, middle: int, S: int) returns (i: int)
    requires 2 * middle == Pow2(E) * Pow10(d) == Pow2(24) + S && j >= 1
    requires IsBinary32(y) && ToPrice(y, d) == middle + j
    ensures y == (Pow2(23) + i) * Pow2(E + 125)
    ensures 2 * Abs((j - i) * Pow2(24) - i * S) <= Pow2(24)
  {
    hide Pow2, Pow10, ToPrice, IsBinary32;
    SmallPowers();
    var k, p, low, step := middle + j, Pow10(d), Pow2(125), Pow2(E + 125);
    PrintsOnlyNearby(y, k, d);
    Pow2Add(E, 125);
    Pow2Add(24, 125);
    var unit := Unit();
    assert unit == Pow2(24) * low && step * p == (2 * middle) * low by {
      MulSwap(Pow2(E), low, p);
    }
    assert middle * unit == (Pow2(23) * step) * p by {
      MulSwap(Pow2(23), step, p);
      MulSwap(Pow2(23), 2 * middle, low);
      MulSwap(middle, Pow2(24), low);
    }
    assert k * unit == middle * unit + j * unit;
    if y < Pow2(23) * step {
      MulMonotone(y, Pow2(23) * step, p);
      MulMonotone(1, j, unit);
    } else {
      var c := OnGrid(y, E);
      i := c - Pow2(23);
      Cells(k, middle, j, i, S, low, step, p, y, unit);
    }
  }

  /** The printing error of grid point 2^23 + i, divided through by the grid's common factor. */
  lemma Cells(k: int, middle: int, j: int, i: int, S: int, low: int, step: int, p: int, y: int, unit: int)
    requires k == middle + j && 2 * middle == 16777216 + S && low >= 1
    requires unit == 16777216 * low && step * p == (2 * middle) * low && y == (8388608 + i) * step
    requires 2 * Abs(k * unit - y * p) <= unit
    ensures 2 * Abs((j - i) * 16777216 - i * S) <= 16777216
  {
    var gap := (j - i) * 16777216 - i * S;
    MulSwap(8388608 + i, step, p);
    MulSwap(k, 16777216, low);
    MulSwap(8388608 + i, 2 * middle, low);
    Gap(k, middle, j, i, S);
    Distribute(k * 16777216, (8388608 + i) * (2 * middle), low);
    CancelFactor(gap, low);
  }

  lemma CancelFactor(gap: int, low: int)
    requires low >= 1 && 2 * Abs(gap * low) <= 16777216 * low
    ensures 2 * Abs(gap) <= 16777216
  {
    if 2 * gap > 16777216 {
      MulMonotone(16777217, 2 * gap, low);
    }
    if 2 * gap < -16777216 {
      MulMonotone(2 * gap, -16777217, low);
    }
  }

  lemma Gap(k: int, middle: int, j: int, i: int, S: int)
    requires k == middle + j && 2 * middle == 16777216 + S
    ensures k * 16777216 - (8388608 + i) * (2 * middle) == (j - i) * 16777216 - i * S
  {
    assert i * (2 * middle) == i * 16777216 + i * S;
    assert (8388608 + i) * (2 * middle) == 8388608 * (2 * middle) + i * (2 * middle);
  }

  lemma {:induction false} BoundIsNeverExact(d: nat, E: nat)
    requires d >= 1
    ensures (Pow2(E) * Pow10(d)) % 10 == 0
  {
    assert Pow10(d) == 10 * Pow10(d - 1);
    MulSwap(Pow2(E), 10, Pow10(d - 1));
    assert Pow2(E) * Pow10(d) == 10 * (Pow2(E) * Pow10(d - 1));
  }

  /** The first decimal that half a grid cell's worth of drift has overtaken. */
  lemma FirstMiss(S: int, half: int) returns (J: int)
    requires 4 <= S && half >= 0
    ensures 1 <= J <= half / 4 + 1 && (J - 1) * S <= half < J * S
  {
    J := half / S + 1;
    assert half == (half / S) * S + half % S;
    MulMonotone(4, S, half / S);
  }

  lemma {:induction false} LostPair(d: nat, E: nat, middle: int, S: int, J: int)
    requires 2 * middle == Pow2(E) * Pow10(d) == Pow2(24) + S && S >= 4
    requires J >= 1 && (J - 1) * S <= Pow2(23) < J * S
    ensures !Representable(middle + J, d) || (J >= 2 && !Representable(middle + J - 1, d))
  {
    hide Pow2, Pow10, ToPrice, IsBinary32;
    if Representable(middle + J, d) {
      var y :| IsBinary32(y) && ToPrice(y, d) == middle + J;
      var i := InGrid(y, J, d, E, middle, S);
      SmallPowers();
      GridMisses(J, S, i, Pow2(23));
      assert J >= 2;
      if Representable(middle + J - 1, d) {
        var y' :| IsBinary32(y') && ToPrice(y', d) == middle + J - 1;
        var i' := InGrid(y', J - 1, d, E, middle, S);
        GridMisses(J, S, i', Pow2(23));
      }
    }
  }

  /** Past the bound some price has no binary32 at all that prints as it. */
  lemma {:induction false} SomePriceIsLost(d: nat, E: nat) returns (k: int)
    requires d >= 1 && Pow2(E) * Pow10(d) >= Pow2(24)
    ensures 0 <= k < Pow2(E) * Pow10(d) && !Representable(k, d)
  {
    hide Pow2, Pow10, Representable;
    SmallPowers();
    BoundIsNeverExact(d, E);
    var bound := Pow2(E) * Pow10(d);
    var S, middle := bound - Pow2(24), bound / 2;
    var J := FirstMiss(S, Pow2(23));
    LostPair(d, E, middle, S, J);
    k := if Representable(middle + J, d) then middle + J - 1 else middle + J;
  }

  lemma {:induction false} SomeFloatPrints(k: int, d: nat, E: nat)
    requires Pow2(E) * Pow10(d) < Pow2(24)
    requires -(Pow2(E) * Pow10(d)) < k < Pow2(E) * Pow10(d)
    ensures Representable(k, d)
  {
    hide Pow2, Pow10, ToPrice, IsBinary32;
    var z := Neighbour(k, d, E);
  }

  /** A whole number below 2^24 is a binary32 and prints as itself. */
  lemma WholeNumbersPrint(k: int)
    requires 0 <= k < Pow2(24)
    ensures Representable(k, 0)
  {
    hide Pow2;
    PowZero();
    var y := k * Unit();
    assert IsScaled(y, k, UNIT_EXPONENT);
    assert IsBinary32(y);
    DivIs(y, Unit(), k, 0);
    assert y * Pow10(0) == y;
    assert ToPrice(y, 0) == k;
  }

  /** The first odd number past 2^24 has no binary32 near enough to print as it. */
  lemma FirstOddNumberIsLost()
    ensures !Representable(Pow2(24) + 1, 0)
  {
    hide Pow2, ToPrice, IsBinary32;
    var k := Pow2(24) + 1;
    if Representable(k, 0) {
      var y :| IsBinary32(y) && ToPrice(y, 0) == k;
      PrintsOnlyNearby(y, k, 0);
      PowZero();
      SmallPowers();
      assert y * Pow10(0) == y;
      Pow2Add(24, UNIT_EXPONENT);
      Pow2Add(23, 150);
      Pow2Add(1, UNIT_EXPONENT);
      assert k * Unit() == Pow2(24) * Unit() + Unit() by { MulPlus(Pow2(24), Unit()); }
      var c := OnGrid(y, 25);
      MulSwap(c, 2, Unit());
      OddIsApart(k, 2 * c, Unit());
    }
  }

  lemma MulPlus(a: int, b: int)
    ensures (a + 1) * b == a * b + b
  {
  }

  /** A whole number apart is a whole unit apart. */
  lemma OddIsApart(k: int, e: int, unit: int)
    requires k % 2 == 1 && e % 2 == 0 && unit >= 1
    ensures 2 * Abs(k * unit - e * unit) > unit
  {
    Distribute(k, e, unit);
    if k > e {
      MulMonotone(1, k - e, unit);
    } else {
      MulMonotone(k - e, -1, unit);
    }
  }

  lemma PowersBeyond(E: nat)
    ensures Pow2(E) <= Pow2(24) || Pow2(24) + 1 < Pow2(E)
  {
    hide Pow2;
    SmallPowers();
    if E <= 24 {
      Pow2Grows(E, 24);
    } else {
      Pow2Grows(25, E);
      Pow2Add(24, 1);
    }
  }

  /**
   * The exact condition. Every price of `d` decimals below 2^E can come back
   * from the wire if and only if 2^E * 10^d < 2^24, or, at no decimals, where
   * the last whole number below is still a binary32, 2^E <= 2^24.
   */
  lemma RecoveryBound(d: nat, E: nat)
    ensures (forall k :: 0 <= k < Pow2(E) * Pow10(d) ==> Representable(k, d)) <==>
      if d == 0 then Pow2(E) <= Pow2(24) else Pow2(E) * Pow10(d) < Pow2(24)
  {
    hide Pow2, Pow10, Representable;
    if d == 0 {
      PowZero();
      PowersBeyond(E);
      if Pow2(E) <= Pow2(24) {
        forall k | 0 <= k < Pow2(E) * Pow10(d) ensures Representable(k, d) {
          WholeNumbersPrint(k);
        }
      } else {
        FirstOddNumberIsLost();
        SmallPowers();
        assert 0 <= Pow2(24) + 1 < Pow2(E) * Pow10(d);
      }
    } else if Pow2(E) * Pow10(d) < Pow2(24) {
      forall k | 0 <= k < Pow2(E) * Pow10(d)
        ensures Representable(k, d)
      {
        SomeFloatPrints(k, d, E);
      }
    } else {
      var k := SomePriceIsLost(d, E);
    }
  }
}
