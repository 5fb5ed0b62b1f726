/** Conversion between integers and IEEE 754 binary32 values.

    Every float32 obtained from an integer is itself an integer, so the rounding is
    modelled on `int`.  The exponent is not bounded above: the model is exact for
    magnitudes below 2^128 - 2^103, where binary32 would overflow to infinity. */
module Float32 {

  /** 2^24: the significand of binary32 has 24 bits. */
  const LIMIT: int := 0x100_0000
  const MAX_INT32: int := 0x7fff_ffff
  const MIN_INT32: int := -0x8000_0000

  type Int32 = x: int | MIN_INT32 <= x <= MAX_INT32

  function Abs(x: int): nat {
    if x < 0 then -x else x
  }

  function Pow2(k: nat): (p: int)
    ensures p >= 1
  {
    if k == 0 then 1 else 2 * Pow2(k - 1)
  }

  // ----- reference definition (section 4.3.1 of IEEE 754-2019)

  /** A binary32 integer: a 24-bit significand times a power of two. */
  ghost predicate Representable(v: int) {
    exists k: nat, m: int :: IsScaled(v, m, k)
  }

  ghost predicate IsScaled(v: int, m: int, k: nat) {
    -LIMIT < m < LIMIT && v == m * Pow2(k)
  }

  /** `v` is `x` rounded to nearest, and to the even neighbour on a tie.  Two neighbours
      at distance d are consecutive multiples of d, so "even" means a multiple of 2d. */
  ghost predicate RoundsTiesToEven(x: int, v: int) {
    && Representable(v)
    && (forall w: int :: Representable(w) ==> Abs(x - v) <= Abs(x - w))
    && (forall w: int :: Representable(w) && w != v && Abs(x - w) == Abs(x - v) ==> v % (2 * Abs(v - w)) == 0)
  }

  // ----- the conversion as the hardware does it

  /** Number of low-order bits of x that do not fit in the significand. */
  function Exponent(x: nat): nat {
    if x < LIMIT then 0 else 1 + Exponent(x / 2)
  }

  function RoundToMultiple(x: nat, q: int): int
    requires q >= 1
  {
    var r := x % q;
    if 2 * r < q || (2 * r == q && (x / q) % 2 == 0) then x - r else x - r + q
  }

  function RoundNat(x: nat): int {
    RoundToMultiple(x, Pow2(Exponent(x)))
  }

  /** Go's float32(x) for an integer x. */
  function FromInt(x: int): int {
    if x < 0 then -RoundNat(-x) else RoundNat(x)
  }

  // ----- powers of two

  lemma MulAssociates(a: int, b: int, c: int)
    ensures a * (b * c) == (a * b) * c
  {
  }

  lemma {:induction false} Pow2Divides(j: nat, k: nat)
    requires j <= k
    ensures Pow2(k) == Pow2(k - j) * Pow2(j)
  {
    if j < k {
      Pow2Divides(j, k - 1);
      MulAssociates(2, Pow2(k - 1 - j), Pow2(j));
    }
  }

  lemma {:induction false} Pow2Monotone(j: nat, k: nat)
    requires j <= k
    ensures Pow2(j) <= Pow2(k)
  {
    if j < k {
      Pow2Monotone(j, k - 1);
    }
  }

  lemma {:induction false} ExponentBounds(x: nat)
    ensures x < LIMIT * Pow2(Exponent(x))
    ensures Exponent(x) > 0 ==> LIMIT * Pow2(Exponent(x) - 1) <= x
  {
    if x >= LIMIT {
      ExponentBounds(x / 2);
    }
  }

  // ----- correctness of the rounding

  lemma MulMonotone(a: int, b: int, q: int)
    ensures q >= 0 && a <= b ==> a * q <= b * q
  {
  }

  lemma FloorAsMultiple(x: nat, q: int)
    requires q >= 1
    ensures x - x % q == (x / q) * q
    ensures x - x % q + q == (x / q + 1) * q
  {
  }

  /** Between two consecutive multiples of the quantum of x no binary32 value lies. */
  lemma NoneBetween(x: nat, w: int)
    requires Representable(w)
    ensures var q := Pow2(Exponent(x)); w <= x - x % q || x - x % q + q <= w
  {
    var e := Exponent(x);
    if e > 0 {
      var k: nat, m: int :| IsScaled(w, m, k);
      if k < e {
        FinerIsBelow(x, w, m, k);
      } else {
        CoarserIsMultiple(x, w, m, k);
      }
    }
  }

  /** A value with a finer quantum cannot exceed the smallest multiple in the binade of x. */
  lemma FinerIsBelow(x: nat, w: int, m: int, k: nat)
    requires IsScaled(w, m, k) && k < Exponent(x)
    ensures w <= x - x % Pow2(Exponent(x))
  {
    var q, h := Pow2(Exponent(x)), Pow2(Exponent(x) - 1);
    assert q == 2 * h;
    Pow2Monotone(k, Exponent(x) - 1);
    MulMonotone(m, LIMIT, Pow2(k));
    assert w <= LIMIT * h;
    ExponentBounds(x);
    FloorMultiple(x, q, LIMIT / 2);
    FloorAsMultiple(x, q);
  }

  lemma CoarserIsMultiple(x: nat, w: int, m: int, k: nat)
    requires IsScaled(w, m, k) && k >= Exponent(x)
    ensures var q := Pow2(Exponent(x)); w <= x - x % q || x - x % q + q <= w
  {
    var q := Pow2(Exponent(x));
    Pow2Divides(Exponent(x), k);
    var t := m * Pow2(k - Exponent(x));
    MulAssociates(m, Pow2(k - Exponent(x)), q);
    MulMonotone(t, x / q, q);
    MulMonotone(x / q + 1, t, q);
    FloorAsMultiple(x, q);
  }

  lemma FloorMultiple(x: nat, q: int, n: int)
    requires q >= 1 && n * q <= x
    ensures n * q <= (x / q) * q
  {
    MulMonotone(n, x / q, q);
    MulMonotone(x / q + 1, n, q);
  }

  lemma MultipleRepresentable(x: nat)
    ensures Representable(x - x % Pow2(Exponent(x)))
    ensures Representable(x - x % Pow2(Exponent(x)) + Pow2(Exponent(x)))
  {
    var e := Exponent(x);
    var n := x / Pow2(e);
    FloorAsMultiple(x, Pow2(e));
    QuotientBelowLimit(x);
    ScaledRepresentable(n, e);
    ScaledRepresentable(n + 1, e);
  }

  lemma QuotientBelowLimit(x: nat)
    ensures 0 <= x / Pow2(Exponent(x)) < LIMIT
  {
    ExponentBounds(x);
    FloorAsMultiple(x, Pow2(Exponent(x)));
    MulMonotone(LIMIT, x / Pow2(Exponent(x)), Pow2(Exponent(x)));
  }

  lemma ScaledRepresentable(n: nat, e: nat)
    requires n <= LIMIT
    ensures Representable(n * Pow2(e))
  {
    if n < LIMIT {
      assert IsScaled(n * Pow2(e), n, e);
    } else {
      assert LIMIT * Pow2(e) == (LIMIT / 2) * Pow2(e + 1);
      assert IsScaled(n * Pow2(e), LIMIT / 2, e + 1);
    }
  }

  lemma NegRepresentable(v: int)
    requires Representable(v)
    ensures Representable(-v)
  {
    var k: nat, m: int :| IsScaled(v, m, k);
    assert IsScaled(-v, -m, k);
  }

  lemma RoundNatCorrect(x: nat)
    ensures RoundsTiesToEven(x, RoundNat(x))
  {
    var q := Pow2(Exponent(x));
    var lo := x - x % q;
    var v := RoundNat(x);
    MultipleRepresentable(x);
    forall w: int | Representable(w)
      ensures w <= lo || lo + q <= w
    {
      if lo < w < lo + q { NoneBetween(x, w); }
    }
    forall w: int | Representable(w) && w != v && Abs(x - w) == Abs(x - v)
      ensures v % (2 * Abs(v - w)) == 0
    {
      assert 2 * (x % q) == q;
      assert Abs(v - w) == q;
      EvenMultiple(x, q);
    }
  }

  lemma EvenMultiple(x: nat, q: int)
    requires q >= 1 && 2 * (x % q) == q
    ensures RoundToMultiple(x, q) % (2 * q) == 0
  {
    var n := x / q;
    var v := RoundToMultiple(x, q);
    var h := if n % 2 == 0 then n / 2 else n / 2 + 1;
    assert v == (2 * q) * h by {
      assert x - x % q == q * n;
      if n % 2 == 0 { assert n == 2 * h; } else { assert n + 1 == 2 * h; assert q * n + q == q * (n + 1); }
    }
    MultipleModZero(2 * q, h);
  }

  lemma MultipleModZero(d: int, h: int)
    requires d >= 1
    ensures (d * h) % d == 0
  {
    SmallMultiple(d, h - (d * h) / d);
    assert d * (h - (d * h) / d) == (d * h) % d;
  }

  lemma SmallMultiple(d: int, t: int)
    ensures -d < d * t < d ==> t == 0
  {
    MulMonotone(1, t, d);
    MulMonotone(t, -1, d);
  }

  /** The conversion is the one section 4.3.1 of IEEE 754-2019 prescribes. */
  lemma FromIntCorrect(x: int)
    ensures RoundsTiesToEven(x, FromInt(x))
  {
    if x >= 0 {
      RoundNatCorrect(x);
    } else {
      RoundNatCorrect(-x);
      var v := FromInt(x);
      NegRepresentable(-v);
      forall w: int | Representable(w)
        ensures Abs(x - v) <= Abs(x - w)
        ensures w != v && Abs(x - w) == Abs(x - v) ==> v % (2 * Abs(v - w)) == 0
      {
        NegRepresentable(w);
        if w != v && Abs(x - w) == Abs(x - v) {
          assert (-v) % (2 * Abs(-v - -w)) == 0;
          NegMod(v, 2 * Abs(v - w));
        }
      }
    }
  }

  lemma NegMod(v: int, d: int)
    requires d >= 1 && (-v) % d == 0
    ensures v % d == 0
  {
    assert v == d * (-((-v) / d));
    MultipleModZero(d, -((-v) / d));
  }

  /** The prescription determines the value: there is no other correct conversion. */
  lemma RoundingUnique(x: int, v: int, w: int)
    requires RoundsTiesToEven(x, v) && RoundsTiesToEven(x, w)
    ensures v == w
  {
    var d := Abs(v - w);
    assert Abs(x - v) == Abs(x - w);
    if d > 0 {
      EvenDistance(v, w, 2 * d);
    }
  }

  /** Two multiples of d at a distance below d coincide. */
  lemma EvenDistance(v: int, w: int, d: int)
    requires d >= 1 && v % d == 0 && w % d == 0
    ensures Abs(v - w) < d ==> v == w
  {
    assert v - w == d * (v / d - w / d);
    SmallMultiple(d, v / d - w / d);
  }

  // ----- what callers rely on

  lemma Monotone(x: int, y: int)
    requires x <= y
    ensures FromInt(x) <= FromInt(y)
  {
    FromIntCorrect(x);
    FromIntCorrect(y);
    var v, w := FromInt(x), FromInt(y);
    assert Abs(x - v) <= Abs(x - w) && Abs(y - w) <= Abs(y - v);
  }

  /** Exactly the binary32 integers survive the conversion unchanged. */
  lemma ExactIffRepresentable(x: int)
    ensures FromInt(x) == x <==> Representable(x)
  {
    FromIntCorrect(x);
    if Representable(x) {
      assert Abs(x - FromInt(x)) <= Abs(x - x);
    }
  }

  lemma ExactWithinLimit(x: int)
    requires Abs(x) <= LIMIT
    ensures FromInt(x) == x
  {
    assert IsScaled(x, x, 0) || Abs(x) == LIMIT;
    assert Pow2(1) == 2;
    assert Abs(x) == LIMIT ==> IsScaled(x, x / 2, 1);
    ExactIffRepresentable(x);
  }

  /** Inside the bound the conversion tells every pair of integers apart. */
  lemma InjectiveWithinLimit(x: int, y: int)
    requires Abs(x) <= LIMIT && Abs(y) <= LIMIT
    ensures FromInt(x) == FromInt(y) <==> x == y
  {
    ExactWithinLimit(x);
    ExactWithinLimit(y);
  }

  /** The rounding error is at most half the quantum. */
  lemma ErrorBound(x: int)
    ensures 2 * Abs(x - FromInt(x)) <= Pow2(Exponent(Abs(x)))
  {
  }

  /** Beyond the bound only integers close to each other collapse: at most as far apart as
      the mean of their quanta. */
  lemma LookAlikesAreClose(x: int, y: int)
    requires FromInt(x) == FromInt(y)
    ensures 2 * Abs(x - y) <= Pow2(Exponent(Abs(x))) + Pow2(Exponent(Abs(y)))
  {
    ErrorBound(x);
    ErrorBound(y);
  }

  /** The bound cannot be raised: the next integer collapses onto it. */
  lemma LimitIsTight()
    ensures FromInt(LIMIT + 1) == FromInt(LIMIT) == LIMIT
  {
    assert Exponent(LIMIT + 1) == 1 && Pow2(1) == 2 by {
      assert Exponent((LIMIT + 1) / 2) == 0;
    }
    ExactWithinLimit(LIMIT);
  }

  // ----- float32 back to int32

  /** Rounding a real toward zero. */
  function Truncate(f: real): int {
    if f < 0.0 then -((-f).Floor) else f.Floor
  }

  predicate FitsInt32(f: real) {
    MIN_INT32 <= Truncate(f) <= MAX_INT32
  }

  /** Go's int32(f).  Out of range the language leaves the result to the implementation,
      so it is a parameter. */
  function ToInt32(f: real, outOfRange: Int32): Int32 {
    if FitsInt32(f) then Truncate(f) else outOfRange
  }

  /** A generation number sent by the server as the JSON number g and stored as int32. */
  function StoredGeneration(g: nat, outOfRange: Int32): Int32 {
    ToInt32(FromInt(g) as real, outOfRange)
  }

  /** Exactly below 2^31 - 64 a generation number reaches int32 in range. */
  lemma GenerationFits(g: nat)
    ensures FitsInt32(FromInt(g) as real) <==> g < 0x8000_0000 - 64
  {
    var last: int := 0x8000_0000 - 65;
    LastFitting();
    if g <= last {
      Monotone(0, g);
      Monotone(g, last);
      assert FromInt(0) == 0 by { ExactWithinLimit(0); }
    } else {
      Monotone(last + 1, g);
    }
  }

  lemma LastFitting()
    ensures FromInt(0x8000_0000 - 65) == 0x8000_0000 - 128
    ensures FromInt(0x8000_0000 - 64) == 0x8000_0000
  {
    ExponentStep(0x8000_0000 - 65);
    ExponentStep(0x8000_0000 - 64);
  }

  lemma ExponentStep(x: nat)
    requires 0x4000_0000 <= x < 0x8000_0000
    ensures Pow2(Exponent(x)) == 128
  {
    ExponentBounds(x);
    var e := Exponent(x);
    assert Pow2(7) == 128 by { assert Pow2(4) == 16; }
    assert Pow2(6) == 64 by { assert Pow2(3) == 8; }
    if e < 7 { Pow2Monotone(e, 6); assert false; }
    if e > 7 { Pow2Monotone(7, e - 1); assert false; }
  }

  /** Storing through float32 keeps the order of two generations the server sent, and is
      the identity up to 2^24. */
  lemma GenerationOrder(observed: nat, g: nat, oor: Int32)
    requires observed <= g < 0x8000_0000 - 64
    ensures StoredGeneration(observed, oor) <= StoredGeneration(g, oor)
    ensures g <= LIMIT ==> StoredGeneration(g, oor) == g
  {
    GenerationFits(g);
    GenerationFits(observed);
    Monotone(observed, g);
    if g <= LIMIT { ExactWithinLimit(g); }
  }

  /** Beyond the bound the two stored values keep their order exactly if both are out of
      range, or the result the implementation yields is no smaller than the earlier one. */
  lemma GenerationOrderIff(observed: nat, g: nat, oor: Int32)
    requires observed <= g
    ensures StoredGeneration(observed, oor) <= StoredGeneration(g, oor) <==>
            g < 0x8000_0000 - 64 || observed >= 0x8000_0000 - 64 || FromInt(observed) <= oor
  {
    GenerationFits(g);
    GenerationFits(observed);
    Monotone(observed, g);
    Monotone(0, observed);
    ExactWithinLimit(0);
  }

  /** So a machine that yields a negative number loses the order of every pair that
      straddles the bound: the server's next generation is stored below the present one. */
  lemma GenerationOrderLostAtBound(observed: nat, g: nat, oor: Int32)
    requires observed < 0x8000_0000 - 64 <= g && oor < 0
    ensures StoredGeneration(g, oor) < StoredGeneration(observed, oor)
  {
    GenerationOrderIff(observed, g, oor);
    Monotone(0, observed);
    ExactWithinLimit(0);
  }
}
