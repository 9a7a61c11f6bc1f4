/**
 The arithmetic behind number columns: powers, divisibility, and which whole numbers a double
 precision column stores as they are.
 */
module Numbers {

  function Pow10(n: nat): (r: int)
    ensures r >= 1
  {
    if n == 0 then 1 else 10 * Pow10(n - 1)
  }

  function Pow5(n: nat): (r: int)
    ensures r >= 1
  {
    if n == 0 then 1 else 5 * Pow5(n - 1)
  }

  function Pow2(n: nat): (r: int)
    ensures r >= 1
  {
    if n == 0 then 1 else 2 * Pow2(n - 1)
  }

  lemma {:induction false} Pow10Sum(m: nat, n: nat)
    ensures Pow10(m + n) == Pow10(m) * Pow10(n)
  {
    if m > 0 {
      Pow10Sum(m - 1, n);
      assert m + n - 1 == (m - 1) + n;
    }
  }

  lemma MultipleOf(k: int, u: int)
    requires u >= 1
    ensures (k * u) % u == 0 && (k * u - u) % u == 0 && (-(k * u - u)) % u == 0
  {
    MultipleMod(k, u);
    MultipleMod(k - 1, u);
    MultipleMod(1 - k, u);
    assert k * u - u == (k - 1) * u && -(k * u - u) == (1 - k) * u;
  }

  lemma NoSmallMultiple(m: int, u: int)
    requires u >= 1
    ensures m == 0 || m * u >= u || m * u <= -u
  {
    if m >= 1 {
      assert (m - 1) * u >= 0;
    } else if m <= -1 {
      assert (m + 1) * u <= 0;
    }
  }

  lemma MultipleMod(k: int, u: int)
    requires u >= 1
    ensures (k * u) % u == 0
  {
    var q, r := (k * u) / u, (k * u) % u;
    assert (k - q) * u == r;
    NoSmallMultiple(k - q, u);
  }

  lemma RangeOf(k: int, u: int)
    requires k >= 10 && u >= 1
    ensures (k * u - u) % u == 0 && (-(k * u - u)) % u == 0 && k * u - u >= u
  {
    MultipleOf(k, u);
    assert (k - 2) * u >= 0;
  }

  lemma Pow10Tens(n: nat)
    requires n > 0
    ensures Pow10(n) >= 10
  {
  }

  lemma UnitsDivide(i: int, u: int, v: int)
    requires u >= 1 && v >= 1 && i % u == 0 && u % v == 0
    ensures i % v == 0
  {
    var a, b := i / u, u / v;
    assert i == a * u && u == b * v;
    assert i == (a * b) * v;
    MultipleMod(a * b, v);
  }

  // ---------------------------------------------------------------- doubles

  /** Significands have 53 bits. */
  const SIGNIFICANDS := 9_007_199_254_740_992

  /** The largest exponent of a whole number with a full significand. */
  const MAX_EXPONENT: nat := 971

  const MAX_DOUBLE := (SIGNIFICANDS - 1) * Pow2(MAX_EXPONENT)

  /** A 53-bit significand times a power of two up to 2^k. */
  predicate ExactIn(i: int, k: nat)
    decreases k
  {
    -SIGNIFICANDS < i < SIGNIFICANDS || (k > 0 && i % 2 == 0 && ExactIn(i / 2, k - 1))
  }

  /** A double holds the whole number exactly. */
  predicate Exact(i: int) {
    ExactIn(i, MAX_EXPONENT)
  }

  lemma SmallExact(i: int)
    requires -SIGNIFICANDS < i < SIGNIFICANDS
    ensures Exact(i)
  {
  }

  lemma {:induction false} ExactShifted(m: int, t: nat, k: nat)
    requires -SIGNIFICANDS < m < SIGNIFICANDS && t <= k
    ensures ExactIn(m * Pow2(t), k)
  {
    if t > 0 {
      ExactShifted(m, t - 1, k - 1);
      assert m * Pow2(t) == 2 * (m * Pow2(t - 1));
    }
  }

  lemma {:induction false} InexactShifted(odd: int, t: nat, k: nat)
    requires odd % 2 == 1 && odd >= SIGNIFICANDS
    ensures !ExactIn(odd * Pow2(t), k)
    decreases k
  {
    assert odd * Pow2(t) >= odd by { NoSmallMultiple(Pow2(t), odd); }
    if t > 0 {
      assert odd * Pow2(t) == 2 * (odd * Pow2(t - 1));
      if k > 0 {
        InexactShifted(odd, t - 1, k - 1);
      }
    }
  }

  lemma OddInexact(odd: int)
    requires odd % 2 == 1 && odd >= SIGNIFICANDS
    ensures !Exact(odd)
  {
    InexactShifted(odd, 0, MAX_EXPONENT);
  }

  lemma {:induction false} BoundedIn(i: int, k: nat)
    requires ExactIn(i, k)
    ensures -(SIGNIFICANDS - 1) * Pow2(k) <= i <= (SIGNIFICANDS - 1) * Pow2(k)
    decreases k
  {
    if !(-SIGNIFICANDS < i < SIGNIFICANDS) {
      BoundedIn(i / 2, k - 1);
      assert (SIGNIFICANDS - 1) * Pow2(k) == 2 * ((SIGNIFICANDS - 1) * Pow2(k - 1));
    } else {
      assert (SIGNIFICANDS - 1) * Pow2(k) >= SIGNIFICANDS - 1;
    }
  }

  lemma ExactBounded(i: int)
    requires Exact(i)
    ensures -MAX_DOUBLE <= i <= MAX_DOUBLE
  {
    hide Pow2, ExactIn;
    BoundedIn(i, MAX_EXPONENT);
  }

  lemma ExtremesExact()
    ensures Exact(MAX_DOUBLE) && Exact(-MAX_DOUBLE) && Exact(1) && MAX_DOUBLE >= 1
  {
    hide Pow2, ExactIn;
    ExactShifted(SIGNIFICANDS - 1, MAX_EXPONENT, MAX_EXPONENT);
    ExactShifted(1 - SIGNIFICANDS, MAX_EXPONENT, MAX_EXPONENT);
    assert (1 - SIGNIFICANDS) * Pow2(MAX_EXPONENT) == -MAX_DOUBLE;
    SmallExact(1);
  }

  lemma {:induction false} Pow10Factors(t: nat)
    ensures Pow10(t) == Pow5(t) * Pow2(t)
  {
    if t > 0 {
      Pow10Factors(t - 1);
      assert 10 * (Pow5(t - 1) * Pow2(t - 1)) == (5 * Pow5(t - 1)) * (2 * Pow2(t - 1));
    }
  }

  lemma {:induction false} Pow5Odd(t: nat)
    ensures Pow5(t) % 2 == 1
  {
    if t > 0 {
      Pow5Odd(t - 1);
      OddTimesOdd(5, Pow5(t - 1));
    }
  }

  lemma NinesOdd(n: nat)
    requires n > 0
    ensures (Pow10(n) - 1) % 2 == 1
  {
    var half := 5 * Pow10(n - 1);
    assert Pow10(n) == 2 * half;
    hide Pow10;
    BeforeEven(half);
  }

  lemma BeforeEven(half: int)
    ensures (2 * half - 1) % 2 == 1
  {
  }

  lemma OddTimesOdd(a: int, b: int)
    requires a % 2 == 1 && b % 2 == 1
    ensures (a * b) % 2 == 1
  {
    var k := a / 2;
    assert a == 2 * k + 1;
    assert a * b == 2 * (k * b) + b;
  }

  /** The largest number of p digits at a scale of -t, when its odd part does not fit a significand. */
  lemma ScaledInexact(p: nat, t: nat)
    requires p > 0 && (Pow10(p) - 1) * Pow5(t) >= SIGNIFICANDS
    ensures !Exact(Pow10(p) * Pow10(t) - Pow10(t))
  {
    hide ExactIn, Pow10, Pow5, Pow2;
    var odd := (Pow10(p) - 1) * Pow5(t);
    NinesOdd(p);
    Pow5Odd(t);
    OddTimesOdd(Pow10(p) - 1, Pow5(t));
    InexactShifted(odd, t, MAX_EXPONENT);
    Pow10Factors(t);
    assert odd * Pow2(t) == (Pow10(p) - 1) * (Pow5(t) * Pow2(t));
    assert (Pow10(p) - 1) * Pow10(t) == Pow10(p) * Pow10(t) - Pow10(t);
  }

  lemma {:induction false} Pow5Sum(m: nat, n: nat)
    ensures Pow5(m + n) == Pow5(m) * Pow5(n)
  {
    if m > 0 {
      Pow5Sum(m - 1, n);
      assert m + n - 1 == (m - 1) + n;
    }
  }

  lemma {:induction false} Pow5Large(t: nat)
    requires t >= 24
    ensures Pow5(t) >= SIGNIFICANDS
  {
    if t == 24 {
      assert Pow5(1) == 5 && Pow5(2) == 25 && Pow5(3) == 125;
      Pow5Sum(3, 3);
      Pow5Sum(6, 6);
      Pow5Sum(12, 12);
    } else {
      Pow5Large(t - 1);
    }
  }

  lemma LeTimes(a: int, b: int, u: int)
    requires a <= b && u >= 1
    ensures a * u <= b * u && (a < b ==> a * u < b * u)
  {
    Difference(a, b, u);
    AtLeast(b - a, u);
  }

  lemma Difference(a: int, b: int, u: int)
    ensures (b - a) * u == b * u - a * u
  {
  }

  lemma AtLeast(k: int, u: int)
    requires k >= 0 && u >= 1
    ensures k * u >= k
  {
    assert k * (u - 1) >= 0;
  }

  lemma Quotient(i: int, most: int, u: int)
    requires u >= 1 && i % u == 0 && -(most * u) <= i <= most * u
    ensures i == (i / u) * u && -most <= i / u <= most
  {
    var n := i / u;
    assert i == n * u && (-most) * u == -(most * u);
    if n > most {
      LeTimes(most, n, u);
    } else if n < -most {
      LeTimes(n, -most, u);
    }
  }

  lemma Scaled(n: int, most: int, u: int)
    requires -most <= n <= most && u >= 1
    ensures -(most * u) <= n * u <= most * u
  {
    LeTimes(-most, n, u);
    LeTimes(n, most, u);
    assert (-most) * u == -(most * u);
  }

  /** Every number of p digits at a scale of -t, when the odd part of the largest fits a significand. */
  lemma ScaledExact(i: int, p: nat, t: nat)
    requires p > 0 && (Pow10(p) - 1) * Pow5(t) < SIGNIFICANDS && i % Pow10(t) == 0
    requires -(Pow10(p) * Pow10(t) - Pow10(t)) <= i <= Pow10(p) * Pow10(t) - Pow10(t)
    ensures Exact(i)
  {
    hide ExactIn, Pow10, Pow5, Pow2;
    var n, most := i / Pow10(t), Pow10(p) - 1;
    assert most * Pow10(t) == Pow10(p) * Pow10(t) - Pow10(t);
    Quotient(i, most, Pow10(t));
    Scaled(n, most, Pow5(t));
    Pow10Tens(p);
    LeTimes(1, most, Pow5(t));
    if t >= 24 {
      Pow5Large(t);
    }
    ExactShifted(n * Pow5(t), t, MAX_EXPONENT);
    Pow10Factors(t);
    assert n * Pow5(t) * Pow2(t) == n * (Pow5(t) * Pow2(t));
  }
}
