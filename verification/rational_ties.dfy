/** In exact arithmetic, a ratio of two whole numbers (and so the exact ratio
    of two finite binary floating-point tempos) is never exactly half-way
    between two powers of two on a logarithmic scale, so the tie rule of the
    nearest exponent never decides anything for such ratios. A rounded
    floating-point logarithm of that ratio can still be exactly half-way. */
module RationalTies {
  import opened PowerOfTwo

  function IntPow2(j: nat): (p: nat)
    ensures p >= 1
  {
    if j == 0 then 1 else 2 * IntPow2(j - 1)
  }

  lemma {:induction false} Pow2OfNat(j: nat)
    ensures Pow2(j) == IntPow2(j) as real
  {
    if j > 0 {
      Pow2OfNat(j - 1);
    }
  }

  lemma OddSquareIsOdd(t: int)
    ensures (2 * t + 1) * (2 * t + 1) == 2 * (2 * t * t + 2 * t) + 1
  {
  }

  /** No whole number squared is twice a positive square: sqrt(2) is irrational. */
  lemma {:induction false} NotTwiceSquare(x: nat, y: nat)
    requires y > 0
    ensures x * x != 2 * (y * y)
    decreases x
  {
    if x * x == 2 * (y * y) {
      if x % 2 == 1 {
        OddSquareIsOdd(x / 2);
      } else {
        var u := x / 2;
        assert x == 2 * u;
        assert x * x == 4 * (u * u);
        assert y * y == 2 * (u * u);
        assert u > 0;
        NotTwiceSquare(y, u);
      }
    }
  }

  lemma CastProduct(x: int, y: int)
    ensures (x * y) as real == (x as real) * (y as real)
  {
  }

  lemma CastSquare(x: int)
    ensures Square(x as real) == (x * x) as real
  {
    CastProduct(x, x);
  }

  /** The same fact over the reals: a^2 is never 2 n^2 for n > 0. */
  lemma NotTwiceSquareReal(a: nat, n: nat)
    requires n > 0
    ensures Square(a as real) != 2.0 * Square(n as real)
  {
    CastSquare(a);
    CastSquare(n);
    NotTwiceSquare(a, n);
  }

  /** a/c squared is never 2^(2k+1) for k >= 0. */
  lemma NotAboveHalfway(a: int, c: int, k: nat)
    requires a > 0 && c > 0
    ensures Square(a as real / c as real) != Pow2(2 * k + 1)
  {
    OddPow2AsSquare(k);
    RatioNotTwiceSquare(a, c, IntPow2(k));
  }

  /** (a/c)^2 is never 2 m^2 for positive whole a, c and m. */
  lemma RatioNotTwiceSquare(a: int, c: int, m: int)
    requires a > 0 && c > 0 && m > 0
    ensures Square(a as real / c as real) != 2.0 * Square(m as real)
  {
    CastProduct(m, c);
    NotTwiceSquareReal(a, m * c);
    NotHalfwayByRatio(a as real / c as real, a as real, c as real, m as real, (m * c) as real);
  }

  /** The real-number core of the argument: if a^2 is not 2 (m c)^2, then
      (a/c)^2 is not 2 m^2. */
  lemma NotHalfwayByRatio(x: real, a: real, c: real, m: real, mc: real)
    requires c > 0.0 && x == a / c && mc == m * c
    requires Square(a) != 2.0 * Square(mc)
    ensures Square(x) != 2.0 * Square(m)
  {
    if Square(x) == 2.0 * Square(m) {
      ClearDenominator(x, a, c, m);
    }
  }

  lemma OddPow2AsSquare(k: nat)
    ensures Pow2(2 * k + 1) == 2.0 * Square(IntPow2(k) as real)
  {
    SquareOfPow2(k);
    Pow2Step(2 * k);
    Pow2OfNat(k);
  }

  /** From (a/c)^2 == 2 m^2 follows a^2 == 2 (m c)^2. */
  lemma ClearDenominator(x: real, a: real, c: real, m: real)
    requires c > 0.0 && x == a / c && Square(x) == 2.0 * Square(m)
    ensures Square(a) == 2.0 * Square(m * c)
  {
    assert x * c == a;
    SquareOfProduct(x, c, a);
    SquareOfProduct(m, c, m * c);
  }

  /** The square of a ratio of two positive whole numbers is never an odd
      power of two. */
  lemma RationalNeverHalfway(a: int, c: int, k: int)
    requires a > 0 && c > 0
    ensures Square(a as real / c as real) != Pow2(2 * k + 1)
  {
    if k >= 0 {
      NotAboveHalfway(a, c, k);
    } else {
      var j := -k - 1;
      NotAboveHalfway(c, a, j);
      Reciprocals(a as real / c as real, c as real / a as real, a as real, c as real);
      Pow2Add(2 * k + 1, 2 * j + 1);
      Pow2Positive(2 * k + 1);
      if Square(a as real / c as real) == Pow2(2 * k + 1) {
        MulCancel(Square(c as real / a as real), Pow2(2 * j + 1), Pow2(2 * k + 1));
      }
    }
  }

  lemma Reciprocals(x: real, y: real, a: real, c: real)
    requires a > 0.0 && c > 0.0 && x == a / c && y == c / a
    ensures Square(x) * Square(y) == 1.0
  {
    assert x * y == 1.0;
    SquareOfProduct(x, y, 1.0);
  }

  /** For a ratio of whole numbers the nearest exponent lies strictly inside
      its band, so it is the unique nearest exponent. */
  lemma RationalStrictlyInside(a: int, c: int)
    requires a > 0 && c > 0
    ensures var n := NearestExponent(a as real / c as real);
      Pow2(2 * n - 1) < Square(a as real / c as real) < Pow2(2 * n + 1)
  {
    var n := NearestExponent(a as real / c as real);
    RationalNeverHalfway(a, c, n - 1);
    RationalNeverHalfway(a, c, n);
  }
}
