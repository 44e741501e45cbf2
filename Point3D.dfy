/**
 * An immutable point (or vector) in three-dimensional Cartesian space.
 *
 * Coordinates are exact reals. Every operation returns a new point or a
 * scalar and leaves its receiver as it was; a missing argument yields `None`
 * (for point results) or `NaN` (for scalar results). Square roots, sines and
 * cosines are supplied by the caller together with the relation they satisfy.
 */
module Geometry {
  import opened Wrappers
  import opened RealArith

  /** Per-coordinate tolerance used by `Equals`. */
  const Epsilon: real := 1e-10

  /** The point (0, 0, 0). */
  const Origin: Point3D := Point3D(0.0, 0.0, 0.0)

  /** A scalar result: a number, or the not-a-number sentinel for a missing argument. */
  datatype Scalar = NaN | Num(value: real)

  /** What `Equals` may be handed: nothing, an object of another class, or a point. */
  datatype Comparand = Null | OtherClass | Point(point: Point3D)

  /** x1*x2 + y1*y2 + z1*z2 */
  function Dot(a: Point3D, b: Point3D): real {
    a.x * b.x + a.y * b.y + a.z * b.z
  }

  /** The vector cross product a × b. */
  function Cross(a: Point3D, b: Point3D): Point3D {
    Point3D(a.y * b.z - a.z * b.y, a.z * b.x - a.x * b.z, a.x * b.y - a.y * b.x)
  }

  /** The square of the Euclidean distance between `a` and `b`. */
  function SquaredDistance(a: Point3D, b: Point3D): (d: real)
    ensures 0.0 <= d
    ensures d == 0.0 <==> a == b
  {
    SumOfSquaresZero(a.x - b.x, a.y - b.y, a.z - b.z);
    Sq(a.x - b.x) + Sq(a.y - b.y) + Sq(a.z - b.z)
  }

  /** `cos` and `sin` are the cosine and sine of one angle. */
  predicate IsAngle(cos: real, sin: real) {
    Sq(cos) + Sq(sin) == 1.0
  }

  datatype Point3D = Point3D(x: real, y: real, z: real) {

    function GetX(): real { x }

    function GetY(): real { y }

    function GetZ(): real { z }

    /** x² + y² + z², the square of the distance from the origin. */
    function SquaredLength(): (r: real)
      ensures 0.0 <= r
      ensures r == 0.0 <==> this == Origin
    {
      SumOfSquaresZero(x, y, z);
      Sq(x) + Sq(y) + Sq(z)
    }

    /**
     * The Euclidean distance from this point to `other`, or `NaN` when `other`
     * is missing; `root` is the square root of the sum of squared differences.
     */
    function DistanceTo(other: Option<Point3D>, root: real): (d: Scalar)
      requires other.Some? ==> IsSqrt(root, SquaredDistance(this, other.value))
      ensures d.NaN? <==> other.None?
      ensures d.Num? ==> 0.0 <= d.value && Sq(d.value) == SquaredDistance(this, other.value)
      ensures d.Num? ==> (d.value == 0.0 <==> this == other.value)
    {
      if other.None? then NaN
      else
        SqrtZero(root, SquaredDistance(this, other.value));
        Num(root)
    }

    /** The length of the position vector; `root` is the square root of x² + y² + z². */
    function DistanceFromOrigin(root: real): (d: real)
      requires IsSqrt(root, SquaredLength())
      ensures 0.0 <= d && Sq(d) == Sq(x) + Sq(y) + Sq(z)
      ensures IsSqrt(d, SquaredDistance(this, Origin))
    {
      assert x - Origin.x == x && y - Origin.y == y && z - Origin.z == z;
      root
    }

    /** Rotation about the X axis by the angle whose cosine and sine are `cos` and `sin`. */
    function RotateX(cos: real, sin: real): (r: Point3D)
      requires IsAngle(cos, sin)
      ensures r.x == x
      ensures r.SquaredLength() == SquaredLength()
      ensures y * r.y + z * r.z == cos * (Sq(y) + Sq(z))
      ensures y * r.z - z * r.y == sin * (Sq(y) + Sq(z))
    {
      PlaneRotationPreservesLength(y, z, cos, sin);
      Point3D(x, y * cos - z * sin, y * sin + z * cos)
    }

    /** Rotation about the Y axis by the angle whose cosine and sine are `cos` and `sin`. */
    function RotateY(cos: real, sin: real): (r: Point3D)
      requires IsAngle(cos, sin)
      ensures r.y == y
      ensures r.SquaredLength() == SquaredLength()
      ensures z * r.z + x * r.x == cos * (Sq(z) + Sq(x))
      ensures z * r.x - x * r.z == sin * (Sq(z) + Sq(x))
    {
      PlaneRotationPreservesLength(z, x, cos, sin);
      Point3D(x * cos + z * sin, y, -x * sin + z * cos)
    }

    /** Rotation about the Z axis by the angle whose cosine and sine are `cos` and `sin`. */
    function RotateZ(cos: real, sin: real): (r: Point3D)
      requires IsAngle(cos, sin)
      ensures r.z == z
      ensures r.SquaredLength() == SquaredLength()
      ensures x * r.x + y * r.y == cos * (Sq(x) + Sq(y))
      ensures x * r.y - y * r.x == sin * (Sq(x) + Sq(y))
    {
      PlaneRotationPreservesLength(x, y, cos, sin);
      Point3D(x * cos - y * sin, x * sin + y * cos, z)
    }

    /** The point halfway between this point and `other`, or `None` when `other` is missing. */
    function Midpoint(other: Option<Point3D>): (m: Option<Point3D>)
      ensures m.None? <==> other.None?
      ensures m.Some? ==> SquaredDistance(this, m.value) == SquaredDistance(m.value, other.value)
      ensures m.Some? ==> SquaredDistance(this, other.value) == 4.0 * SquaredDistance(this, m.value)
    {
      if other.None? then None
      else
        var q := other.value;
        var m := Point3D((x + q.x) / 2.0, (y + q.y) / 2.0, (z + q.z) / 2.0);
        SqOfHalf(x - q.x);
        SqOfHalf(y - q.y);
        SqOfHalf(z - q.z);
        Some(m)
    }

    /** This point moved by the offset (dx, dy, dz). */
    function Translate(dx: real, dy: real, dz: real): (r: Point3D)
      ensures r.x - x == dx && r.y - y == dy && r.z - z == dz
      ensures SquaredDistance(r, this) == Sq(dx) + Sq(dy) + Sq(dz)
    {
      Point3D(x + dx, y + dy, z + dz)
    }

    /** This point scaled about the origin by `factor`; a factor of 0 collapses it to the origin. */
    function Scale(factor: real): (r: Point3D)
      ensures r.SquaredLength() == Sq(factor) * SquaredLength()
      ensures Dot(r, this) == factor * SquaredLength()
      ensures factor == 0.0 ==> r == Origin
    {
      SqOfProduct(x, factor);
      SqOfProduct(y, factor);
      SqOfProduct(z, factor);
      Point3D(x * factor, y * factor, z * factor)
    }

    /** The dot product with `other`, or `NaN` when `other` is missing. */
    function DotProduct(other: Option<Point3D>): (r: Scalar)
      ensures r.NaN? <==> other.None?
      ensures other == Some(this) ==> r == Num(SquaredLength())
    {
      if other.None? then NaN else Num(Dot(this, other.value))
    }

    /** The cross product with `other`, perpendicular to both, or `None` when `other` is missing. */
    function CrossProduct(other: Option<Point3D>): (c: Option<Point3D>)
      ensures c.None? <==> other.None?
      ensures c.Some? ==> Dot(c.value, this) == 0.0 && Dot(c.value, other.value) == 0.0
    {
      if other.None? then None else Some(Cross(this, other.value))
    }

    /**
     * This vector scaled to unit length, where `magnitude` is its distance from
     * the origin; `None` for the zero vector.
     */
    function Normalize(magnitude: real): (n: Option<Point3D>)
      requires IsSqrt(magnitude, SquaredLength())
      ensures n.None? <==> this == Origin
    {
      if magnitude == 0.0 then
        ZeroMagnitudeIsOrigin(this, magnitude);
        None
      else
        SqrtZero(magnitude, SquaredLength());
        Some(Point3D(x / magnitude, y / magnitude, z / magnitude))
    }

    /**
     * Tolerance equality: false for a missing argument or one of another class,
     * otherwise true iff every coordinate differs by less than `Epsilon`.
     */
    function Equals(obj: Comparand): (r: bool)
      ensures r ==> obj.Point?
      ensures obj == Point(this) ==> r
    {
      match obj
      case Null => false
      case OtherClass => false
      case Point(other) =>
        Abs(x - other.x) < Epsilon && Abs(y - other.y) < Epsilon && Abs(z - other.z) < Epsilon
    }
  }

  /** Only the origin has magnitude 0. */
  lemma ZeroMagnitudeIsOrigin(p: Point3D, m: real)
    requires IsSqrt(m, p.SquaredLength()) && m == 0.0
    ensures p == Origin
  {
    SqrtZero(m, p.SquaredLength());
    SumOfSquaresZero(p.x, p.y, p.z);
  }
}
