/**
 * Properties that relate several `Point3D` operations, or one operation to an
 * independent definition: inverses, symmetries, compositions, the behaviour
 * of the tolerance equality, and small worked examples (the length of
 * (3, 4, 0), a quarter turn about Z, the cross product of two unit vectors,
 * normalizing the origin).
 */
module Point3DProperties {
  import opened Wrappers
  import opened RealArith
  import opened Geometry

  // ---------------------------------------------------------------- construction

  /** The constructor stores its three arguments and the getters return them. */
  lemma ConstructorStoresCoordinates(x: real, y: real, z: real)
    ensures Point3D(x, y, z).GetX() == x
    ensures Point3D(x, y, z).GetY() == y
    ensures Point3D(x, y, z).GetZ() == z
  {}

  // ---------------------------------------------------------------- translation

  /** Translating by an offset and then by its negation gives back the point. */
  lemma TranslateInverse(p: Point3D, dx: real, dy: real, dz: real)
    ensures p.Translate(dx, dy, dz).Translate(-dx, -dy, -dz) == p
  {}

  /** Two translations are one translation by the summed offsets. */
  lemma TranslateComposes(p: Point3D, dx1: real, dy1: real, dz1: real, dx2: real, dy2: real, dz2: real)
    ensures p.Translate(dx1, dy1, dz1).Translate(dx2, dy2, dz2) == p.Translate(dx1 + dx2, dy1 + dy2, dz1 + dz2)
  {}

  /** Translating two points by the same offset keeps the distance between them. */
  lemma TranslatePreservesDistance(p: Point3D, q: Point3D, dx: real, dy: real, dz: real)
    ensures SquaredDistance(p.Translate(dx, dy, dz), q.Translate(dx, dy, dz)) == SquaredDistance(p, q)
  {
    var p', q' := p.Translate(dx, dy, dz), q.Translate(dx, dy, dz);
    assert p'.x - q'.x == p.x - q.x && p'.y - q'.y == p.y - q.y && p'.z - q'.z == p.z - q.z;
  }

  // ---------------------------------------------------------------- scaling

  lemma ScaleByOneIsIdentity(p: Point3D)
    ensures p.Scale(1.0) == p
  {}

  /** Scaling by a and then by b is scaling by a * b. */
  lemma ScaleComposes(p: Point3D, a: real, b: real)
    ensures p.Scale(a).Scale(b) == p.Scale(a * b)
  {}

  // ---------------------------------------------------------------- midpoint

  lemma MidpointSymmetric(p: Point3D, q: Point3D)
    ensures p.Midpoint(Some(q)) == q.Midpoint(Some(p))
  {}

  /** The midpoint is this point translated by half the difference to the other one. */
  lemma MidpointIsHalfTranslation(p: Point3D, q: Point3D)
    ensures p.Midpoint(Some(q)) == Some(p.Translate((q.x - p.x) / 2.0, (q.y - p.y) / 2.0, (q.z - p.z) / 2.0))
  {}

  lemma MidpointOfSelf(p: Point3D)
    ensures p.Midpoint(Some(p)) == Some(p)
  {}

  // ---------------------------------------------------------------- distance

  lemma SquaredDistanceSymmetric(a: Point3D, b: Point3D)
    ensures SquaredDistance(a, b) == SquaredDistance(b, a)
  {
    SqNegate(a.x - b.x);
    SqNegate(a.y - b.y);
    SqNegate(a.z - b.z);
  }

  /** The distance from p to q is the distance from q to p. */
  lemma DistanceToSymmetric(p: Point3D, q: Point3D, r1: real, r2: real)
    requires IsSqrt(r1, SquaredDistance(p, q)) && IsSqrt(r2, SquaredDistance(q, p))
    ensures p.DistanceTo(Some(q), r1) == q.DistanceTo(Some(p), r2)
  {
    SquaredDistanceSymmetric(p, q);
    SqrtUnique(r1, r2, SquaredDistance(p, q));
  }

  /** Every point is at distance 0 from itself. */
  lemma DistanceToSelfIsZero(p: Point3D, r: real)
    requires IsSqrt(r, SquaredDistance(p, p))
    ensures p.DistanceTo(Some(p), r) == Num(0.0)
  {}

  /** The distance from the origin is the distance to the origin point. */
  lemma DistanceFromOriginIsDistanceToOrigin(p: Point3D, r: real)
    requires IsSqrt(r, p.SquaredLength())
    ensures IsSqrt(r, SquaredDistance(p, Origin))
    ensures p.DistanceTo(Some(Origin), r) == Num(p.DistanceFromOrigin(r))
  {
    assert p.x - Origin.x == p.x && p.y - Origin.y == p.y && p.z - Origin.z == p.z;
  }

  /** The vector from `b` to `a`. */
  function Difference(a: Point3D, b: Point3D): Point3D {
    Point3D(a.x - b.x, a.y - b.y, a.z - b.z)
  }

  /** |a - c|² expands as |u|² + 2 u·v + |v|² with u = a - b and v = b - c. */
  lemma SquaredDistanceExpands(a: Point3D, b: Point3D, c: Point3D)
    ensures SquaredDistance(a, c) ==
      Difference(a, b).SquaredLength() + 2.0 * Dot(Difference(a, b), Difference(b, c)) + Difference(b, c).SquaredLength()
  {
    SqOfSum(a.x - b.x, b.x - c.x);
    SqOfSum(a.y - b.y, b.y - c.y);
    SqOfSum(a.z - b.z, b.z - c.z);
  }

  /** Lagrange's identity: |u|² |v|² = (u·v)² + |u × v|². */
  lemma LagrangeIdentity(u: Point3D, v: Point3D)
    ensures u.SquaredLength() * v.SquaredLength() == Sq(Dot(u, v)) + Cross(u, v).SquaredLength()
  {}

  lemma DotSquaredBound(u: Point3D, v: Point3D)
    ensures Sq(Dot(u, v)) <= u.SquaredLength() * v.SquaredLength()
  {
    LagrangeIdentity(u, v);
  }

  /** The Cauchy-Schwarz inequality u·v <= |u| |v|, where `ru` and `rv` are the lengths. */
  lemma CauchySchwarz(u: Point3D, v: Point3D, ru: real, rv: real)
    requires IsSqrt(ru, u.SquaredLength()) && IsSqrt(rv, v.SquaredLength())
    ensures Dot(u, v) <= ru * rv
  {
    DotSquaredBound(u, v);
    ProductOfRoots(ru, rv, u.SquaredLength(), v.SquaredLength());
    if 0.0 < Dot(u, v) {
      SqMonotoneIff(Dot(u, v), ru * rv);
    }
  }

  /** The triangle inequality: going from p to r directly is no longer than going through q. */
  lemma TriangleInequality(p: Point3D, q: Point3D, r: Point3D, dpq: real, dqr: real, dpr: real)
    requires IsSqrt(dpq, SquaredDistance(p, q)) && IsSqrt(dqr, SquaredDistance(q, r))
    requires IsSqrt(dpr, SquaredDistance(p, r))
    ensures p.DistanceTo(Some(r), dpr).value <= p.DistanceTo(Some(q), dpq).value + q.DistanceTo(Some(r), dqr).value
  {
    var u, v := Difference(p, q), Difference(q, r);
    assert u.SquaredLength() == SquaredDistance(p, q);
    assert v.SquaredLength() == SquaredDistance(q, r);
    CauchySchwarz(u, v, dpq, dqr);
    SquaredDistanceExpands(p, q, r);
    SqOfSum(dpq, dqr);
    assert Sq(dpr) <= Sq(dpq + dqr);
    SqMonotoneIff(dpr, dpq + dqr);
  }

  // ---------------------------------------------------------------- dot and cross products

  lemma DotProductSymmetric(p: Point3D, q: Point3D)
    ensures p.DotProduct(Some(q)) == q.DotProduct(Some(p))
  {}

  /** Swapping the operands of the cross product negates it. */
  lemma CrossProductAnticommutative(p: Point3D, q: Point3D)
    ensures q.CrossProduct(Some(p)) == Some(p.CrossProduct(Some(q)).value.Scale(-1.0))
  {}

  lemma CrossProductWithSelfIsOrigin(p: Point3D)
    ensures p.CrossProduct(Some(p)) == Some(Origin)
  {}

  /**
   * The polarization identity: the dot product is determined by lengths alone,
   * 2 p·q = |p|² + |q|² - |p - q|².
   */
  lemma DotProductPolarization(p: Point3D, q: Point3D)
    ensures p.DotProduct(Some(q)).Num?
    ensures 2.0 * p.DotProduct(Some(q)).value == p.SquaredLength() + q.SquaredLength() - SquaredDistance(p, q)
  {}

  /** Lagrange's identity for the two operations: |p|² |q|² = (p·q)² + |p × q|². */
  lemma CrossProductLength(p: Point3D, q: Point3D)
    ensures p.DotProduct(Some(q)).Num? && p.CrossProduct(Some(q)).Some?
    ensures p.SquaredLength() * q.SquaredLength() ==
      Sq(p.DotProduct(Some(q)).value) + p.CrossProduct(Some(q)).value.SquaredLength()
  {}

  /** The determinant of the matrix with rows a, b and c, by cofactor expansion along a. */
  function Det(a: Point3D, b: Point3D, c: Point3D): real {
    a.x * (b.y * c.z - b.z * c.y) - a.y * (b.x * c.z - b.z * c.x) + a.z * (b.x * c.y - b.y * c.x)
  }

  /** p, q and p × q form a right-handed system: their determinant is |p × q|², never negative. */
  lemma CrossProductIsRightHanded(p: Point3D, q: Point3D)
    ensures p.CrossProduct(Some(q)).Some?
    ensures Det(p, q, p.CrossProduct(Some(q)).value) == p.CrossProduct(Some(q)).value.SquaredLength()
  {}

  // ---------------------------------------------------------------- rotation

  /** Rotating about X by an angle and then by its negation gives back the point. */
  lemma RotateXInverse(p: Point3D, cos: real, sin: real)
    requires IsAngle(cos, sin)
    ensures IsAngle(cos, -sin)
    ensures p.RotateX(cos, sin).RotateX(cos, -sin) == p
  {
    SqNegate(sin);
  }

  lemma RotateYInverse(p: Point3D, cos: real, sin: real)
    requires IsAngle(cos, sin)
    ensures IsAngle(cos, -sin)
    ensures p.RotateY(cos, sin).RotateY(cos, -sin) == p
  {
    SqNegate(sin);
  }

  lemma RotateZInverse(p: Point3D, cos: real, sin: real)
    requires IsAngle(cos, sin)
    ensures IsAngle(cos, -sin)
    ensures p.RotateZ(cos, sin).RotateZ(cos, -sin) == p
  {
    SqNegate(sin);
  }

  /** A rotation by an angle with sine 0 and positive cosine (a whole number of turns) changes nothing. */
  lemma ZeroAngleRotationIsIdentity(p: Point3D, cos: real)
    requires IsAngle(cos, 0.0) && 0.0 < cos
    ensures p.RotateX(cos, 0.0) == p && p.RotateY(cos, 0.0) == p && p.RotateZ(cos, 0.0) == p
  {}

  /**
   * Two rotations about Z are one rotation by the sum of the angles, whose cosine
   * and sine follow the angle-addition formulas.
   */
  lemma RotateZComposes(p: Point3D, c1: real, s1: real, c2: real, s2: real)
    requires IsAngle(c1, s1) && IsAngle(c2, s2)
    ensures IsAngle(c1 * c2 - s1 * s2, c1 * s2 + s1 * c2)
    ensures p.RotateZ(c1, s1).RotateZ(c2, s2) == p.RotateZ(c1 * c2 - s1 * s2, c1 * s2 + s1 * c2)
  {
    PlaneRotationPreservesLength(c1, s1, c2, s2);
    var c, s := c1 * c2 - s1 * s2, c1 * s2 + s1 * c2;
    var once, twice, direct := p.RotateZ(c1, s1), p.RotateZ(c1, s1).RotateZ(c2, s2), p.RotateZ(c, s);
    AngleAddition(p.x, p.y, c1, s1, c2, s2, once.x, once.y, c, s);
    assert twice.x == direct.x && twice.y == direct.y;
  }

  /** Rotating two points about Z by the same angle keeps the distance between them. */
  lemma RotateZPreservesDistance(p: Point3D, q: Point3D, cos: real, sin: real)
    requires IsAngle(cos, sin)
    ensures SquaredDistance(p.RotateZ(cos, sin), q.RotateZ(cos, sin)) == SquaredDistance(p, q)
  {
    var p', q' := p.RotateZ(cos, sin), q.RotateZ(cos, sin);
    var dx, dy := p.x - q.x, p.y - q.y;
    PlaneRotationPreservesLength(dx, dy, cos, sin);
    assert p'.x - q'.x == dx * cos - dy * sin;
    assert p'.y - q'.y == dx * sin + dy * cos;
  }

  lemma RotateXPreservesDistance(p: Point3D, q: Point3D, cos: real, sin: real)
    requires IsAngle(cos, sin)
    ensures SquaredDistance(p.RotateX(cos, sin), q.RotateX(cos, sin)) == SquaredDistance(p, q)
  {
    var p', q' := p.RotateX(cos, sin), q.RotateX(cos, sin);
    var dy, dz := p.y - q.y, p.z - q.z;
    PlaneRotationPreservesLength(dy, dz, cos, sin);
    assert p'.y - q'.y == dy * cos - dz * sin;
    assert p'.z - q'.z == dy * sin + dz * cos;
  }

  lemma RotateYPreservesDistance(p: Point3D, q: Point3D, cos: real, sin: real)
    requires IsAngle(cos, sin)
    ensures SquaredDistance(p.RotateY(cos, sin), q.RotateY(cos, sin)) == SquaredDistance(p, q)
  {
    var p', q' := p.RotateY(cos, sin), q.RotateY(cos, sin);
    var dz, dx := p.z - q.z, p.x - q.x;
    PlaneRotationPreservesLength(dz, dx, cos, sin);
    assert p'.z - q'.z == dz * cos - dx * sin;
    assert p'.x - q'.x == dz * sin + dx * cos;
  }

  // ---------------------------------------------------------------- normalization

  /** Dividing each coordinate by the (non-zero) magnitude is scaling by its reciprocal, and gives length 1. */
  lemma NormalizedIsUnitScale(p: Point3D, m: real)
    requires m != 0.0 && IsSqrt(m, p.SquaredLength())
    ensures Point3D(p.x / m, p.y / m, p.z / m) == p.Scale(1.0 / m)
    ensures p.Scale(1.0 / m).SquaredLength() == 1.0
    ensures Dot(p.Scale(1.0 / m), p) == m
  {
    var f := 1.0 / m;
    DivideIsTimesReciprocal(p.x, m);
    DivideIsTimesReciprocal(p.y, m);
    DivideIsTimesReciprocal(p.z, m);
    SqOfProduct(f, m);
    ReciprocalTimes(m);
    assert Sq(f) * Sq(m) == Sq(1.0);
    ReciprocalTimesSq(m);
  }

  /** A normalized vector lies at distance 1 from the origin. */
  lemma NormalizeIsUnit(p: Point3D, m: real)
    requires IsSqrt(m, p.SquaredLength())
    ensures p.Normalize(m).Some? ==> p.Normalize(m).value.SquaredLength() == 1.0
  {
    if m != 0.0 {
      NormalizedIsUnitScale(p, m);
    }
  }

  /** A non-zero vector's normalization is the vector scaled by the reciprocal of its magnitude. */
  lemma NormalizeIsScaleByReciprocal(p: Point3D, m: real)
    requires IsSqrt(m, p.SquaredLength()) && p != Origin
    ensures m != 0.0
    ensures p.Normalize(m) == Some(p.Scale(1.0 / m))
    ensures Dot(p.Normalize(m).value, p) == m
  {
    SqrtZero(m, p.SquaredLength());
    NormalizedIsUnitScale(p, m);
  }

  /** Normalizing a normalized vector (whose magnitude is 1) changes nothing. */
  lemma NormalizeIdempotent(p: Point3D, m: real)
    requires IsSqrt(m, p.SquaredLength()) && p != Origin
    ensures IsSqrt(1.0, p.Normalize(m).value.SquaredLength())
    ensures p.Normalize(m).value.Normalize(1.0) == p.Normalize(m)
  {
    var n := p.Normalize(m).value;
    NormalizeIsUnit(p, m);
    assert Point3D(n.x / 1.0, n.y / 1.0, n.z / 1.0) == n;
  }

  // ---------------------------------------------------------------- tolerance equality

  lemma EqualsSymmetric(p: Point3D, q: Point3D)
    ensures p.Equals(Point(q)) == q.Equals(Point(p))
  {}

  /** Equality within tolerance, restated on squared coordinate differences. */
  lemma EqualsIffSquaresWithinTolerance(p: Point3D, q: Point3D)
    ensures p.Equals(Point(q)) <==>
      Sq(p.x - q.x) < Sq(Epsilon) && Sq(p.y - q.y) < Sq(Epsilon) && Sq(p.z - q.z) < Sq(Epsilon)
  {
    AbsBelowIff(p.x - q.x, Epsilon);
    AbsBelowIff(p.y - q.y, Epsilon);
    AbsBelowIff(p.z - q.z, Epsilon);
  }

  /** Points closer than the tolerance are equal. */
  lemma CloseImpliesEquals(p: Point3D, q: Point3D)
    requires SquaredDistance(p, q) < Sq(Epsilon)
    ensures p.Equals(Point(q))
  {
    SqNonNegative(p.x - q.x);
    SqNonNegative(p.y - q.y);
    SqNonNegative(p.z - q.z);
    EqualsIffSquaresWithinTolerance(p, q);
  }

  /** Equal points are less than sqrt(3) times the tolerance apart. */
  lemma EqualsImpliesClose(p: Point3D, q: Point3D)
    requires p.Equals(Point(q))
    ensures SquaredDistance(p, q) < 3.0 * Sq(Epsilon)
  {
    EqualsIffSquaresWithinTolerance(p, q);
  }

  /** Tolerance equality is not transitive: three points 0.6e-10 apart in a row. */
  lemma EqualsNotTransitive()
    ensures Origin.Equals(Point(Point3D(0.6e-10, 0.0, 0.0)))
    ensures Point3D(0.6e-10, 0.0, 0.0).Equals(Point(Point3D(1.2e-10, 0.0, 0.0)))
    ensures !Origin.Equals(Point(Point3D(1.2e-10, 0.0, 0.0)))
  {}

  // ---------------------------------------------------------------- worked examples

  lemma SquaredLengthThreeFour()
    ensures Point3D(3.0, 4.0, 0.0).SquaredLength() == 25.0
  {}

  lemma SquaredDistanceOriginThreeFour()
    ensures SquaredDistance(Origin, Point3D(3.0, 4.0, 0.0)) == 25.0
  {}

  /** The point (3, 4, 0) is at distance 5 from the origin. */
  lemma ExampleDistanceFromOrigin()
    ensures IsSqrt(5.0, Point3D(3.0, 4.0, 0.0).SquaredLength())
    ensures Point3D(3.0, 4.0, 0.0).DistanceFromOrigin(5.0) == 5.0
  {
    SquaredLengthThreeFour();
    assert Sq(5.0) == 25.0;
  }

  /** The distance from the origin to (3, 4, 0) is 5. */
  lemma ExampleDistanceTo()
    ensures IsSqrt(5.0, SquaredDistance(Origin, Point3D(3.0, 4.0, 0.0)))
    ensures Origin.DistanceTo(Some(Point3D(3.0, 4.0, 0.0)), 5.0) == Num(5.0)
  {
    SquaredDistanceOriginThreeFour();
    assert Sq(5.0) == 25.0;
  }

  /** A quarter turn about Z (cosine 0, sine 1) takes (1, 0, 0) to (0, 1, 0). */
  lemma ExampleQuarterTurn()
    ensures IsAngle(0.0, 1.0)
    ensures Point3D(1.0, 0.0, 0.0).RotateZ(0.0, 1.0) == Point3D(0.0, 1.0, 0.0)
  {}

  /** (1, 0, 0) × (0, 1, 0) = (0, 0, 1). */
  lemma ExampleCrossOfUnitVectors()
    ensures Point3D(1.0, 0.0, 0.0).CrossProduct(Some(Point3D(0.0, 1.0, 0.0))) == Some(Point3D(0.0, 0.0, 1.0))
  {}

  /** The origin cannot be normalized. */
  lemma ExampleNormalizeOrigin()
    ensures IsSqrt(0.0, Origin.SquaredLength())
    ensures Origin.Normalize(0.0) == None
  {}
}
