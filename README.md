# Point3D in Dafny

A model of `Point3D`, the immutable three-dimensional point (or vector) class of
`com.csc205.project1`, with proofs of what its operations promise.

A point is the value type `Geometry.Point3D(x, y, z)` over exact reals. Dafny
datatypes cannot be mutated, so what the Java class gets from its `private final`
fields holds by construction: every operation returns a new point or a scalar and
leaves its receiver as it was. Java's `null` is modelled as `Wrappers.Option.None`.
The `Double.NaN` that `distanceTo` and `dotProduct` return for a `null` argument is
the `Geometry.Scalar.NaN` variant. The argument of `equals(Object)` is a
`Geometry.Comparand`, which is `Null`, `OtherClass` or `Point(p)`.

The library numerics are parameters:

- `Math.sqrt(v)` is a `root` (or `magnitude`) argument constrained by
  `RealArith.IsSqrt(root, v)`, that is `0 <= root` and `root² == v`.
- `Math.cos(θ)` and `Math.sin(θ)` are `cos` and `sin` arguments constrained by
  `Geometry.IsAngle(cos, sin)`, that is `cos² + sin² == 1`.

Files:

- `Wrappers.dfy`: the `Option` type that stands for a nullable reference.
- `RealArith.dfy`: squares, square roots and absolute values, with the facts
  the geometry proofs use (monotonicity of squaring, uniqueness of roots, `|d| < e`
  iff `d² < e²`, plane rotations keep `a² + b²`).
- `Point3D.dfy`: the `Geometry` module. It holds the point type, every modelled
  operation (the class's methods as member functions, with the dot product,
  cross product and squared distance they compute as module-level functions),
  and the lemma that `normalize`'s contract
  rests on (that only the origin has magnitude 0).
- `Properties.dfy`: lemmas relating operations to each other. These cover
  inverses, symmetries, compositions, the triangle inequality, the tolerance
  equality and small worked examples (the length of (3, 4, 0), a quarter turn
  about Z, the cross product of two unit vectors, normalizing the origin).

## Model

All source paths are in `src/main/java/com/csc205/project1/`.

| member | source | states |
|---|---|---|
| Point3DProperties.ConstructorStoresCoordinates | src/main/java/com/csc205/project1/Point3D.java:60-97 | the constructor stores x, y and z unchanged and `getX`/`getY`/`getZ` return exactly those values |
| Geometry.SquaredDistance | src/main/java/com/csc205/project1/Point3D.java:121-124 | the sum of squared coordinate differences under the square root of `distanceTo` is non-negative and is 0 exactly when the two points coincide |
| Geometry.Point3D.SquaredLength | src/main/java/com/csc205/project1/Point3D.java:142 | x² + y² + z² is non-negative and is 0 exactly at the origin |
| Geometry.Point3D.DistanceTo | src/main/java/com/csc205/project1/Point3D.java:115-130 | NaN exactly for a missing argument; otherwise a non-negative number whose square is the squared distance, and which is 0 exactly when the two points coincide |
| Geometry.Point3D.DistanceFromOrigin | src/main/java/com/csc205/project1/Point3D.java:141-146 | a non-negative number whose square is x² + y² + z², that is the square root of the squared distance to the origin |
| Geometry.Point3D.RotateX | src/main/java/com/csc205/project1/Point3D.java:149-176 | the x coordinate is unchanged, the squared distance from the origin is preserved, and in the (y, z) plane the old and new vectors have dot product cos·(y² + z²) and signed cross term sin·(y² + z²): a counter-clockwise turn by the angle |
| Geometry.Point3D.RotateY | src/main/java/com/csc205/project1/Point3D.java:179-203 | the y coordinate is unchanged, the squared distance from the origin is preserved, and in the (z, x) plane the old and new vectors have dot product cos·(z² + x²) and signed cross term sin·(z² + x²): a counter-clockwise turn by the angle |
| Geometry.Point3D.RotateZ | src/main/java/com/csc205/project1/Point3D.java:206-230 | the z coordinate is unchanged, the squared distance from the origin is preserved, and in the (x, y) plane the old and new vectors have dot product cos·(x² + y²) and signed cross term sin·(x² + y²): a counter-clockwise turn by the angle |
| Geometry.Point3D.Midpoint | src/main/java/com/csc205/project1/Point3D.java:244-258 | absent exactly for a missing argument; otherwise equidistant from both points and at half their distance (a quarter of the squared distance) from this one |
| Geometry.Point3D.Translate | src/main/java/com/csc205/project1/Point3D.java:272-276 | the result differs from this point by exactly (dx, dy, dz), so its squared distance from it is dx² + dy² + dz² |
| Geometry.Point3D.Scale | src/main/java/com/csc205/project1/Point3D.java:289-298 | the squared length is multiplied by factor², the dot product with the original is factor times its squared length, and factor 0 gives the origin |
| Geometry.Point3D.DotProduct | src/main/java/com/csc205/project1/Point3D.java:313-324 | NaN exactly for a missing argument; the dot product of a point with itself is its squared length |
| Geometry.Point3D.CrossProduct | src/main/java/com/csc205/project1/Point3D.java:340-354 | absent exactly for a missing argument; otherwise perpendicular (zero dot product) to both operands |
| Geometry.Point3D.Normalize | src/main/java/com/csc205/project1/Point3D.java:369-381 | absent exactly when the point is the origin (magnitude 0) |
| Point3DProperties.NormalizeIsUnit | src/main/java/com/csc205/project1/Point3D.java:369-381 | a normalized vector, when present, is at squared distance 1 from the origin |
| Geometry.Point3D.Equals | src/main/java/com/csc205/project1/Point3D.java:397-414 | true only for a point argument (false for `null` and for another class), and true for the point itself |
| Geometry.ZeroMagnitudeIsOrigin | src/main/java/com/csc205/project1/Point3D.java:370-375 | a magnitude of 0 happens only at the origin |
| Point3DProperties.NormalizedIsUnitScale | src/main/java/com/csc205/project1/Point3D.java:380 | dividing by the magnitude is scaling by its reciprocal; the result has squared length 1 and dot product with the original equal to the magnitude |
| Point3DProperties.TranslateInverse | src/main/java/com/csc205/project1/Point3D.java:272-276 | translating by an offset and then by its negation returns the original point |
| Point3DProperties.TranslateComposes | src/main/java/com/csc205/project1/Point3D.java:272-276 | two translations equal one translation by the summed offsets |
| Point3DProperties.TranslatePreservesDistance | src/main/java/com/csc205/project1/Point3D.java:272-276 | translating two points by the same offset keeps their squared distance |
| Point3DProperties.ScaleByOneIsIdentity | src/main/java/com/csc205/project1/Point3D.java:289-298 | scaling by 1 returns the point |
| Point3DProperties.ScaleComposes | src/main/java/com/csc205/project1/Point3D.java:289-298 | scaling by a and then by b is scaling by a·b |
| Point3DProperties.MidpointSymmetric | src/main/java/com/csc205/project1/Point3D.java:244-258 | the midpoint of p and q is the midpoint of q and p |
| Point3DProperties.MidpointIsHalfTranslation | src/main/java/com/csc205/project1/Point3D.java:250-257 | the midpoint is this point translated by half the coordinate difference to the other |
| Point3DProperties.MidpointOfSelf | src/main/java/com/csc205/project1/Point3D.java:250-257 | the midpoint of a point with itself is that point |
| Point3DProperties.SquaredDistanceSymmetric | src/main/java/com/csc205/project1/Point3D.java:121-124 | the squared distance from a to b is the squared distance from b to a |
| Point3DProperties.DistanceToSymmetric | src/main/java/com/csc205/project1/Point3D.java:115-130 | `p.distanceTo(q)` equals `q.distanceTo(p)` |
| Point3DProperties.DistanceToSelfIsZero | src/main/java/com/csc205/project1/Point3D.java:115-130 | the distance from a point to itself is 0 |
| Point3DProperties.DistanceFromOriginIsDistanceToOrigin | src/main/java/com/csc205/project1/Point3D.java:141-146 | `distanceFromOrigin()` equals `distanceTo(new Point3D(0, 0, 0))` |
| Point3DProperties.SquaredDistanceExpands | src/main/java/com/csc205/project1/Point3D.java:121-124 | the squared distance from a to c is len(u)² + 2 u·v + len(v)² for u = a − b and v = b − c |
| Point3DProperties.LagrangeIdentity | src/main/java/com/csc205/project1/Point3D.java:313-354 | len(u)²·len(v)² is the squared dot product plus the squared length of the cross product |
| Point3DProperties.DotSquaredBound | src/main/java/com/csc205/project1/Point3D.java:319 | the squared dot product is at most the product of the squared lengths |
| Point3DProperties.CauchySchwarz | src/main/java/com/csc205/project1/Point3D.java:319 | the dot product is at most the product of the two lengths |
| Point3DProperties.TriangleInequality | src/main/java/com/csc205/project1/Point3D.java:115-130 | `p.distanceTo(r) <= p.distanceTo(q) + q.distanceTo(r)` |
| Point3DProperties.DotProductSymmetric | src/main/java/com/csc205/project1/Point3D.java:313-324 | `p.dotProduct(q)` equals `q.dotProduct(p)` |
| Point3DProperties.CrossProductAnticommutative | src/main/java/com/csc205/project1/Point3D.java:340-354 | `q.crossProduct(p)` is `p.crossProduct(q)` scaled by −1 |
| Point3DProperties.CrossProductWithSelfIsOrigin | src/main/java/com/csc205/project1/Point3D.java:340-354 | the cross product of a vector with itself is the zero vector |
| Point3DProperties.DotProductPolarization | src/main/java/com/csc205/project1/Point3D.java:313-324 | for a present argument, twice the dot product is len(p)² + len(q)² − dist(p, q)², so lengths alone determine it |
| Point3DProperties.CrossProductLength | src/main/java/com/csc205/project1/Point3D.java:313-354 | Lagrange's identity over the two operations: len(p)²·len(q)² is the squared dot product plus the squared length of the cross product |
| Point3DProperties.CrossProductIsRightHanded | src/main/java/com/csc205/project1/Point3D.java:326-354 | the determinant of p, q and p × q is the squared length of p × q, never negative, and positive (p, q and p × q right-handed) when p and q are not parallel |
| Point3DProperties.RotateXInverse | src/main/java/com/csc205/project1/Point3D.java:165-176 | rotating about X by an angle and then by its negation returns the original point |
| Point3DProperties.RotateYInverse | src/main/java/com/csc205/project1/Point3D.java:192-203 | rotating about Y by an angle and then by its negation returns the original point |
| Point3DProperties.RotateZInverse | src/main/java/com/csc205/project1/Point3D.java:219-230 | rotating about Z by an angle and then by its negation returns the original point |
| Point3DProperties.ZeroAngleRotationIsIdentity | src/main/java/com/csc205/project1/Point3D.java:165-230 | rotating about any axis by an angle with sine 0 and positive cosine (a whole number of turns) returns the point |
| Point3DProperties.RotateZComposes | src/main/java/com/csc205/project1/Point3D.java:219-230 | two rotations about Z are one rotation by the summed angle (angle-addition formulas) |
| Point3DProperties.RotateXPreservesDistance | src/main/java/com/csc205/project1/Point3D.java:165-176 | rotating two points about X by the same angle keeps their squared distance |
| Point3DProperties.RotateYPreservesDistance | src/main/java/com/csc205/project1/Point3D.java:192-203 | rotating two points about Y by the same angle keeps their squared distance |
| Point3DProperties.RotateZPreservesDistance | src/main/java/com/csc205/project1/Point3D.java:219-230 | rotating two points about Z by the same angle keeps their squared distance |
| Point3DProperties.NormalizeIsScaleByReciprocal | src/main/java/com/csc205/project1/Point3D.java:369-381 | a non-zero vector normalizes to itself scaled by 1/magnitude, and its dot product with the result is the magnitude |
| Point3DProperties.NormalizeIdempotent | src/main/java/com/csc205/project1/Point3D.java:369-381 | the normalized vector has magnitude 1, and normalizing it again changes nothing |
| Point3DProperties.EqualsSymmetric | src/main/java/com/csc205/project1/Point3D.java:397-414 | `p.equals(q)` equals `q.equals(p)` |
| Point3DProperties.EqualsIffSquaresWithinTolerance | src/main/java/com/csc205/project1/Point3D.java:402-406 | two points are equal iff every squared coordinate difference is below (1e-10)² |
| Point3DProperties.CloseImpliesEquals | src/main/java/com/csc205/project1/Point3D.java:402-406 | points whose squared distance is below (1e-10)² are equal |
| Point3DProperties.EqualsImpliesClose | src/main/java/com/csc205/project1/Point3D.java:402-406 | equal points are at squared distance below 3·(1e-10)² |
| Point3DProperties.EqualsNotTransitive | src/main/java/com/csc205/project1/Point3D.java:402-406 | (0,0,0) equals (0.6e-10,0,0), which equals (1.2e-10,0,0), but (0,0,0) does not equal (1.2e-10,0,0) |
| Point3DProperties.SquaredLengthThreeFour | src/main/java/com/csc205/project1/Point3D.java:142 | (3, 4, 0) has x² + y² + z² = 25 |
| Point3DProperties.SquaredDistanceOriginThreeFour | src/main/java/com/csc205/project1/Point3D.java:121-124 | the squared distance from the origin to (3, 4, 0) is 25 |
| Point3DProperties.ExampleDistanceFromOrigin | src/main/java/com/csc205/project1/Point3D.java:141-146 | (3, 4, 0) is at distance 5 from the origin |
| Point3DProperties.ExampleDistanceTo | src/main/java/com/csc205/project1/Point3D.java:115-130 | the distance from the origin to (3, 4, 0) is 5 |
| Point3DProperties.ExampleQuarterTurn | src/main/java/com/csc205/project1/Point3D.java:219-230 | a quarter turn about Z takes (1, 0, 0) to (0, 1, 0) |
| Point3DProperties.ExampleCrossOfUnitVectors | src/main/java/com/csc205/project1/Point3D.java:340-354 | (1, 0, 0) × (0, 1, 0) = (0, 0, 1) |
| Point3DProperties.ExampleNormalizeOrigin | src/main/java/com/csc205/project1/Point3D.java:369-375 | normalizing the origin gives no point |

## Left out

- Floating point: coordinates are exact reals. The model therefore has no rounding, overflow, infinities or NaN propagation, and no signed zero in `scale(0)`. The NaN sentinel of a missing argument is an explicit result variant.
- `Math.sqrt`, `Math.sin` and `Math.cos` are not computed. Their results are parameters that carry the relation they satisfy: `root² = v` with `root >= 0`, and `cos² + sin² = 1`. An angle in radians therefore does not appear in the model.
- Geometry.Point3D.DistanceTo, Geometry.Point3D.DistanceFromOrigin and Geometry.Point3D.Normalize: these take the square root as an argument and require it to be the exact non-negative root of the exact squared distance or length. `Math.sqrt` gives no such guarantee: it returns the double nearest to the root of an already rounded sum of squares, and the squares themselves can underflow or overflow. For `(1e200, 0, 0)` the Java `distanceFromOrigin()` is `Infinity`, while the model's result is the exact length.
- Geometry.Point3D.Normalize: the Java method returns `null` whenever the computed magnitude is 0 (Point3D.java:370-374). That also happens for points other than the origin whose squares underflow, such as `(1e-200, 0, 0)`. The model returns `None` only for the origin itself.
- Geometry.Point3D.Equals: the `this == obj` shortcut is not modelled separately. Over reals, the same object has the same coordinates and so is within the tolerance anyway. The two differ only for NaN or infinite coordinates, where `x - obj.x` is NaN and the tolerance test fails. The model has neither.
- Logging through `java.util.logging` is left out. It does not affect any result.
- `hashCode` is not modelled. It hashes the exact double bits, while `equals` compares within a tolerance, so no contract relating the two holds.
- `toString` is not modelled. It renders `%.2f` text.
- `TestPoint.java` is not part of this model. It is a console demo of a different `Point` class.
