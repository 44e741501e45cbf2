/**
 * Facts about squares, square roots and absolute values of reals that the
 * geometry proofs rely on. Squares are written through `Sq`, whose body
 * multiplies by `Id(a)` rather than by `a` itself, so that the solver keeps
 * each square as one term instead of expanding it into a power.
 */
module RealArith {

  /**
   * The identity on reals. It exists only for the verifier: a factor wrapped in
   * `Id` stays one term, so `Sq(a)` is not rewritten into a power of `a`, which
   * the solver cannot combine with the linear facts about `a`.
   */
  function Id(a: real): real { a }

  /** a² */
  function Sq(a: real): real { a * Id(a) }

  /** `root` is the exact non-negative square root of `v`, which `Math.sqrt(v)` approximates. */
  predicate IsSqrt(root: real, v: real) {
    0.0 <= root && Sq(root) == v
  }

  /** The absolute value, as `Math.abs` computes it for a number. */
  function Abs(a: real): (r: real)
    ensures 0.0 <= r && (r == a || r == -a)
  {
    if a < 0.0 then -a else a
  }

  lemma SqNonNegative(a: real)
    ensures 0.0 <= Sq(a)
  {}

  lemma SqPositive(a: real)
    requires a != 0.0
    ensures 0.0 < Sq(a)
  {}

  lemma SqNegate(a: real)
    ensures Sq(-a) == Sq(a)
  {}

  lemma SqOfProduct(a: real, b: real)
    ensures Sq(a * b) == Sq(a) * Sq(b)
  {}

  lemma SqOfSum(a: real, b: real)
    ensures Sq(a + b) == Sq(a) + 2.0 * (a * b) + Sq(b)
  {}

  /** The product of two square roots is the square root of the product. */
  lemma ProductOfRoots(ra: real, rb: real, a: real, b: real)
    requires IsSqrt(ra, a) && IsSqrt(rb, b)
    ensures IsSqrt(ra * rb, a * b)
  {
    SqOfProduct(ra, rb);
  }

  /** Halving a number quarters its square. */
  lemma SqOfHalf(a: real)
    ensures Sq(a) == 4.0 * Sq(a / 2.0)
  {}

  /** A sum of three squares is non-negative, and zero exactly when all three numbers are. */
  lemma SumOfSquaresZero(a: real, b: real, c: real)
    ensures 0.0 <= Sq(a) + Sq(b) + Sq(c)
    ensures Sq(a) + Sq(b) + Sq(c) == 0.0 <==> a == 0.0 && b == 0.0 && c == 0.0
  {
    SqNonNegative(a);
    SqNonNegative(b);
    SqNonNegative(c);
    if a != 0.0 {
      SqPositive(a);
    } else if b != 0.0 {
      SqPositive(b);
    } else if c != 0.0 {
      SqPositive(c);
    }
  }

  /** Squaring is strictly increasing on the non-negative reals. */
  lemma SqStrictlyMonotone(a: real, b: real)
    requires 0.0 <= a < b
    ensures Sq(a) < Sq(b)
  {
    // b² - a² = (b - a)(b + a); the second factor goes through `Id` for the
    // same reason as in `Sq`: written as a plain product the solver expands it
    // and gives up on the mixed linear and nonlinear terms.
    assert 0.0 < (b - a) * Id(b + a);
    assert Sq(b) - Sq(a) == (b - a) * Id(b + a);
  }

  /** For non-negative numbers, comparing the squares compares the numbers. */
  lemma SqMonotoneIff(a: real, b: real)
    requires 0.0 <= a && 0.0 <= b
    ensures a <= b <==> Sq(a) <= Sq(b)
  {
    if a < b {
      SqStrictlyMonotone(a, b);
    } else if b < a {
      SqStrictlyMonotone(b, a);
    }
  }

  /** A number has at most one non-negative square root. */
  lemma SqrtUnique(r1: real, r2: real, v: real)
    requires IsSqrt(r1, v) && IsSqrt(r2, v)
    ensures r1 == r2
  {
    SqMonotoneIff(r1, r2);
    SqMonotoneIff(r2, r1);
  }

  /** The square root of zero is zero, and of nothing else. */
  lemma SqrtZero(root: real, v: real)
    requires IsSqrt(root, v)
    ensures root == 0.0 <==> v == 0.0
  {
    if root != 0.0 {
      SqPositive(root);
    }
  }

  /** |d| < e exactly when d² < e², for a positive bound e. */
  lemma AbsBelowIff(d: real, e: real)
    requires 0.0 < e
    ensures Abs(d) < e <==> Sq(d) < Sq(e)
  {
    SqNegate(d);
    assert Sq(Abs(d)) == Sq(d);
    SqMonotoneIff(e, Abs(d));
    if Abs(d) < e {
      SqStrictlyMonotone(Abs(d), e);
    }
  }

  lemma DivideIsTimesReciprocal(a: real, m: real)
    requires m != 0.0
    ensures a / m == a * (1.0 / m)
  {}

  lemma ReciprocalTimes(m: real)
    requires m != 0.0
    ensures (1.0 / m) * m == 1.0
  {}

  lemma ReciprocalTimesSq(m: real)
    requires m != 0.0
    ensures (1.0 / m) * Sq(m) == m
  {}

  /**
   * Rotating (a, b) by the angle (c1, s1) to (u, v) and then by (c2, s2) is
   * rotating it by the angle (c, s) whose cosine and sine follow the
   * angle-addition formulas.
   */
  lemma AngleAddition(a: real, b: real, c1: real, s1: real, c2: real, s2: real, u: real, v: real, c: real, s: real)
    requires u == a * c1 - b * s1 && v == a * s1 + b * c1
    requires c == c1 * c2 - s1 * s2 && s == c1 * s2 + s1 * c2
    ensures u * c2 - v * s2 == a * c - b * s
    ensures u * s2 + v * c2 == a * s + b * c
  {}

  /**
   * A plane rotation by an angle whose cosine and sine are `c` and `s`
   * keeps a² + b².
   */
  lemma PlaneRotationPreservesLength(a: real, b: real, c: real, s: real)
    requires Sq(c) + Sq(s) == 1.0
    ensures Sq(a * c - b * s) + Sq(a * s + b * c) == Sq(a) + Sq(b)
  {}
}
