/** Powers of two with integer exponents, and the choice of the power of two
    nearest (on a logarithmic scale) to a positive ratio, without logarithms:
    n is nearest to log2(r) exactly when r*r lies between 2^(2n-1) and 2^(2n+1). */
module PowerOfTwo {

  /** 2^n for any integer n. */
  function Pow2(n: int): real
    decreases if n >= 0 then n else -n
  {
    if n == 0 then 1.0 else if n > 0 then 2.0 * Pow2(n - 1) else Pow2(n + 1) / 2.0
  }

  lemma {:induction false} Pow2Positive(n: int)
    ensures Pow2(n) > 0.0
    decreases if n >= 0 then n else -n
  {
    if n > 0 {
      Pow2Positive(n - 1);
    } else if n < 0 {
      Pow2Positive(n + 1);
    }
  }

  lemma Pow2Step(n: int)
    ensures Pow2(n + 1) == 2.0 * Pow2(n)
  {
  }

  lemma Pow2Add(a: int, b: int)
    ensures Pow2(a + b) == Pow2(a) * Pow2(b)
  {
    if b >= 0 {
      Pow2AddNat(a, b);
    } else {
      Pow2AddNegative(a, b);
    }
  }

  lemma {:induction false} Pow2AddNat(a: int, b: nat)
    ensures Pow2(a + b) == Pow2(a) * Pow2(b)
  {
    if b > 0 {
      Pow2AddNat(a, b - 1);
      Pow2AddUp(a, b);
    }
  }

  lemma {:induction false} Pow2AddNegative(a: int, b: int)
    requires b <= 0
    ensures Pow2(a + b) == Pow2(a) * Pow2(b)
    decreases -b
  {
    if b < 0 {
      Pow2AddNegative(a, b + 1);
      Pow2AddDown(a, b);
    }
  }

  lemma {:induction false} Pow2AddUp(a: int, b: int)
    requires Pow2(a + b - 1) == Pow2(a) * Pow2(b - 1)
    ensures Pow2(a + b) == Pow2(a) * Pow2(b)
  {
    Pow2Step(a + b - 1);
    Pow2Step(b - 1);
  }

  lemma {:induction false} Pow2AddDown(a: int, b: int)
    requires Pow2(a + b + 1) == Pow2(a) * Pow2(b + 1)
    ensures Pow2(a + b) == Pow2(a) * Pow2(b)
  {
    Pow2Step(a + b);
    Pow2Step(b);
  }

  lemma {:induction false} Pow2Monotone(a: int, b: int)
    requires a < b
    ensures Pow2(a) < Pow2(b)
    decreases b - a
  {
    Pow2Step(b - 1);
    Pow2Positive(b - 1);
    if a < b - 1 {
      Pow2Monotone(a, b - 1);
    }
  }

  /** The exponent k with 2^k <= x < 2^(k+1), for x >= 1. */
  function FloorLog2Above(x: real): (k: int)
    requires x >= 1.0
    ensures k >= 0 && Pow2(k) <= x < Pow2(k + 1)
    decreases x.Floor
  {
    if x < 2.0 then
      0
    else
      assert (x / 2.0).Floor < x.Floor;
      var k := FloorLog2Above(x / 2.0);
      Pow2Step(k + 1);
      Pow2Step(k);
      1 + k
  }

  /** The exponent k with 2^k <= x < 2^(k+1), for 0 < x < 1. */
  function FloorLog2Below(x: real): (k: int)
    requires 0.0 < x < 1.0
    ensures k < 0 && Pow2(k) <= x < Pow2(k + 1)
    decreases (1.0 / x).Floor
  {
    if x >= 0.5 then
      -1
    else
      assert 1.0 / (x * 2.0) == (1.0 / x) / 2.0;
      assert (1.0 / (x * 2.0)).Floor < (1.0 / x).Floor;
      var k := FloorLog2Below(x * 2.0);
      Pow2Step(k - 1);
      Pow2Step(k);
      k - 1
  }

  /** The integer part of log2(x). */
  function FloorLog2(x: real): (k: int)
    requires x > 0.0
    ensures Pow2(k) <= x < Pow2(k + 1)
  {
    if x >= 1.0 then FloorLog2Above(x) else FloorLog2Below(x)
  }

  function Square(r: real): real
  {
    r * r
  }

  lemma SquarePositive(r: real)
    requires r > 0.0
    ensures Square(r) > 0.0
  {
    assert Square(r) / r == r;
  }

  lemma SquareOfPow2(n: int)
    ensures Square(Pow2(n)) == Pow2(2 * n)
  {
    Pow2Add(n, n);
  }

  /** n is the integer nearest to log2(r), stated on q = r*r: q lies between
      2^(2n-1) and 2^(2n+1), and at an exact half-way point the exponent
      farther from zero is taken (round half away from zero). */
  predicate IsNearestHalfExponent(q: real, n: int)
  {
    && IsInOctaveBand(q, n)
    && (q == Pow2(2 * n - 1) ==> n >= 1)
    && (q == Pow2(2 * n + 1) ==> n <= -1)
  }

  /** round(log2(r)). */
  function NearestExponent(r: real): (n: int)
    requires r > 0.0
    ensures IsNearestHalfExponent(Square(r), n)
  {
    SquarePositive(r);
    HalfOfFloor(Square(r), FloorLog2(Square(r)))
  }


  /** round(k'/2) for the real k' = log2(q), given its integer part k. */
  function HalfOfFloor(q: real, k: int): (n: int)
    requires Pow2(k) <= q < Pow2(k + 1)
    ensures IsNearestHalfExponent(q, n)
  {
    if k % 2 == 0 then
      Pow2Monotone(k - 1, k);
      k / 2
    else if q > Pow2(k) || k > 0 then
      Pow2Monotone(k + 1, k + 2);
      (k + 1) / 2
    else
      Pow2Monotone(k - 1, k);
      (k - 1) / 2
  }

  /** The nearest exponent is unique: away from the half-way points a ratio
      strictly inside the band of n gets n. */
  lemma NearestExponentUnique(r: real, m: int)
    requires r > 0.0
    requires Pow2(2 * m - 1) < Square(r) < Pow2(2 * m + 1)
    ensures NearestExponent(r) == m
  {
    HalfExponentUnique(Square(r), NearestExponent(r), m);
  }

  /** q lies in the closed band of exponent n: between 2^(2n-1) and 2^(2n+1),
      edges included. */
  predicate IsInOctaveBand(q: real, n: int)
  {
    Pow2(2 * n - 1) <= q <= Pow2(2 * n + 1)
  }

  /** When q lies strictly inside the band of m, no other exponent's band, even
      counting its edges, holds q; so no tie rule can pick another one. */
  lemma HalfExponentUnique(q: real, n: int, m: int)
    requires IsInOctaveBand(q, n)
    requires Pow2(2 * m - 1) < q < Pow2(2 * m + 1)
    ensures n == m
  {
    if n > m {
      if 2 * n - 1 > 2 * m + 1 {
        Pow2Monotone(2 * m + 1, 2 * n - 1);
      }
    } else if n < m {
      if 2 * n + 1 < 2 * m - 1 {
        Pow2Monotone(2 * n + 1, 2 * m - 1);
      }
    }
  }

  lemma MulMonotone(a: real, b: real, c: real)
    requires c > 0.0 && a <= b
    ensures a * c <= b * c
  {
  }

  lemma MulCancel(a: real, b: real, c: real)
    requires c > 0.0 && a * c <= b * c
    ensures a <= b
  {
  }

  lemma ReciprocalAntitone(a: real, b: real)
    requires 0.0 < a <= b
    ensures 1.0 / b <= 1.0 / a
  {
    MulCancel(1.0 / b, 1.0 / a, a * b);
  }

  lemma SquareOfProduct(a: real, b: real, c: real)
    requires a * b == c
    ensures Square(c) == Square(a) * Square(b)
  {
    assert Square(c) == (a * b) * (a * b);
  }

  /** s is r with n octaves divided out: s * 2^n == r. */
  predicate IsResidual(r: real, n: int, s: real)
  {
    s * Pow2(n) == r
  }

  /** r / 2^n. */
  function Residual(r: real, n: int): (s: real)
    ensures IsResidual(r, n, s)
    ensures r > 0.0 ==> s > 0.0
  {
    Pow2Positive(n);
    var s := r / Pow2(n);
    assert r > 0.0 ==> s > 0.0 by {
      if r > 0.0 && s <= 0.0 {
        MulMonotone(s, 0.0, Pow2(n));
      }
    }
    s
  }

  /** How far a stretch ratio x is from no stretch at all, as a factor >= 1:
      stretching by 2 and by 1/2 are equally far. */
  function Deviation(x: real): (d: real)
    requires x > 0.0
    ensures d >= 1.0
    ensures d == x || d * x == 1.0
  {
    if x >= 1.0 then x else ReciprocalAntitone(x, 1.0); 1.0 / x
  }

  /** What is left of r after dividing out the nearest power of two lies
      within half an octave of 1. */
  lemma ResidualWithinHalfOctave(r: real)
    requires r > 0.0
    ensures 0.5 <= Square(Residual(r, NearestExponent(r))) <= 2.0
  {
    var n := NearestExponent(r);
    BandOfResidual(r, n, Residual(r, n));
  }

  lemma BandOfResidual(r: real, n: int, s: real)
    requires IsNearestHalfExponent(Square(r), n)
    requires IsResidual(r, n, s)
    ensures 0.5 <= Square(s) <= 2.0
  {
    SquareOfResidual(r, n, s);
    OctaveEdges(n);
    BoundsOfFactor(Square(s), Pow2(2 * n - 1), Square(r));
  }

  lemma SquareOfResidual(r: real, n: int, s: real)
    requires IsResidual(r, n, s)
    ensures Square(s) * (2.0 * Pow2(2 * n - 1)) == Square(r)
  {
    SquareOfProduct(s, Pow2(n), r);
    SquareOfPow2(n);
    Pow2Step(2 * n - 1);
  }

  lemma OctaveEdges(n: int)
    ensures Pow2(2 * n - 1) > 0.0
    ensures Pow2(2 * n + 1) == 4.0 * Pow2(2 * n - 1)
  {
    Pow2Positive(2 * n - 1);
    Pow2Step(2 * n - 1);
    Pow2Step(2 * n);
  }

  /** If s * (2c) lies between c and 4c, for c > 0, then s lies between 1/2 and 2. */
  lemma BoundsOfFactor(s: real, c: real, q: real)
    requires c > 0.0
    requires q == s * (2.0 * c)
    requires c <= q <= 4.0 * c
    ensures 0.5 <= s <= 2.0
  {
    MulCancel(0.5, s, 2.0 * c);
    MulCancel(s, 2.0, 2.0 * c);
  }

  /** A residual within half an octave of 1 lies strictly between 1/2 and 2. */
  lemma HalfOctaveBounds(s: real)
    requires s > 0.0 && 0.5 <= Square(s) <= 2.0
    ensures 0.5 < s < 2.0
  {
    if s <= 0.5 {
      MulMonotone(s, 0.5, s);
      MulMonotone(s, 0.5, 0.5);
    }
    if s >= 2.0 {
      MulMonotone(2.0, s, s);
      MulMonotone(2.0, s, 2.0);
    }
  }

  /** Multiplying a residual s within half an octave of 1 by f >= 2 moves it
      no closer to 1. */
  lemma MultiplyMovesAway(s: real, f: real, t: real)
    requires s > 0.0 && 0.5 <= Square(s) <= 2.0
    requires f >= 2.0 && t == s * f
    ensures t > 0.0
    ensures Deviation(s) <= Deviation(t)
  {
    HalfOctaveBounds(s);
    MulMonotone(2.0, f, s);
    if s < 1.0 {
      assert (1.0 / s) * s == 1.0 && (2.0 * s) * s == 2.0 * Square(s);
      MulCancel(1.0 / s, 2.0 * s, s);
    }
  }

  /** Dividing a residual s within half an octave of 1 by f >= 2 moves it no
      closer to 1. */
  lemma DivideMovesAway(s: real, f: real, t: real)
    requires s > 0.0 && 0.5 <= Square(s) <= 2.0
    requires f >= 2.0 && t > 0.0 && t * f == s
    ensures Deviation(s) <= Deviation(t)
  {
    HalfOctaveBounds(s);
    MulMonotone(2.0, f, t);
    assert t < 1.0;
    if s >= 1.0 {
      assert (s * t) * f == Square(s);
      MulCancel(s * t, 1.0, f);
      MulCancel(s, 1.0 / t, t);
    } else {
      ReciprocalAntitone(t, s);
    }
  }

  /** Residuals of one r at n <= m octaves differ by 2^(m-n). */
  lemma ResidualShift(r: real, n: int, m: int, sn: real, sm: real)
    requires n <= m
    requires IsResidual(r, n, sn) && IsResidual(r, m, sm)
    ensures IsResidual(sn, m - n, sm)
  {
    Pow2Add(n, m - n);
    Pow2Positive(n);
    CancelFactor(sn, sm, Pow2(m - n), Pow2(n), Pow2(m), r);
  }

  /** From sn * b == r and sm * c == r, with c == a * b and b > 0, follows
      sm * a == sn. */
  lemma CancelFactor(sn: real, sm: real, a: real, b: real, c: real, r: real)
    requires b > 0.0 && c == a * b
    requires sn * b == r && sm * c == r
    ensures sm * a == sn
  {
    assert (sm * a) * b == sn * b;
    MulCancel(sm * a, sn, b);
    MulCancel(sn, sm * a, b);
  }

  lemma Pow2AtLeastTwo(k: int)
    requires k >= 1
    ensures Pow2(k) >= 2.0
  {
    Pow2Step(0);
    if k > 1 {
      Pow2Monotone(1, k);
    }
  }

  /** Dividing r by 2^NearestExponent(r) leaves the least stretch among all
      powers of two. */
  lemma StretchMinimizing(r: real, m: int)
    requires r > 0.0
    ensures Deviation(Residual(r, NearestExponent(r))) <= Deviation(Residual(r, m))
  {
    var n := NearestExponent(r);
    ResidualWithinHalfOctave(r);
    LeastDeviation(r, n, m, Residual(r, n), Residual(r, m));
  }

  lemma LeastDeviation(r: real, n: int, m: int, sn: real, sm: real)
    requires sn > 0.0 && sm > 0.0 && 0.5 <= Square(sn) <= 2.0
    requires IsResidual(r, n, sn) && IsResidual(r, m, sm)
    ensures Deviation(sn) <= Deviation(sm)
  {
    if m < n {
      ResidualShift(r, m, n, sm, sn);
      MultiplyByOctaves(sn, n - m, sm);
    } else if m > n {
      ResidualShift(r, n, m, sn, sm);
      DivideByOctaves(sn, m - n, sm);
    } else {
      Pow2Positive(n);
      CancelBoth(sn, sm, Pow2(n), r);
    }
  }

  lemma CancelBoth(a: real, b: real, p: real, r: real)
    requires p > 0.0 && a * p == r && b * p == r
    ensures a == b
  {
    MulCancel(a, b, p);
    MulCancel(b, a, p);
  }

  lemma MultiplyByOctaves(s: real, k: int, t: real)
    requires s > 0.0 && 0.5 <= Square(s) <= 2.0
    requires k >= 1 && IsResidual(t, k, s)
    ensures t > 0.0 && Deviation(s) <= Deviation(t)
  {
    Pow2AtLeastTwo(k);
    MultiplyMovesAway(s, Pow2(k), t);
  }

  lemma DivideByOctaves(s: real, k: int, t: real)
    requires s > 0.0 && t > 0.0 && 0.5 <= Square(s) <= 2.0
    requires k >= 1 && IsResidual(s, k, t)
    ensures Deviation(s) <= Deviation(t)
  {
    Pow2AtLeastTwo(k);
    DivideMovesAway(s, Pow2(k), t);
  }
}
