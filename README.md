# geometric_tools in Dafny

This project models the algebraic core of the `geometric_tools` Python library over idealised real numbers. It covers five pieces:

- **Generic vectors.** `Vector` has component-wise arithmetic, equality, `dot`, and an index assignment that writes its backing array in place.
- **3-vectors.** `Vector3D` keeps its named fields `x`, `y`, `z` in step with array slots 0, 1, 2 through both setters. It also has the cross product.
- **Quaternions.** The library's 4-term product, the conjugate `inv`, embedding and extracting 3-vectors, and rotation quaternions. `quaternion_rotation` applies the sandwich `inv(r) * v * r`.
- **Angle conversion.** Degrees and radians are converted after reduction modulo a full turn.
- **Locations.** The family has three classes: ECEF (Earth-centred Earth-fixed, km), SphCoords (km, radians) and Geo (degrees, km above a spherical Earth of radius 6378.137 km). It covers:
  - the range-folding constructors;
  - the conversions between the classes;
  - displacement by a vector, the difference of two locations, and field-wise equality.

Modules: one per source file, plus two shared support modules (`Outcomes` and `Elementary`):

| module | file | form |
|---|---|---|
| `Outcomes` | `outcomes.dfy` | Python exceptions as `Result`; `Arg` stands for an isinstance check |
| `VectorAlg` | `vector_alg.dfy` | functions on `seq<real>`, plus class `Vector` over an `array<real>` |
| `Vector3` | `vector_3d.dfy` | `Vec3` values and `cross`, plus class `Vector3D` with a `Valid()` sync invariant |
| `Elementary` | `elementary.dfy` | sqrt, acos, sin, cos and `unit()` passed in as functions, with point-wise laws |
| `Angles` | `angles.dfy` | Python float `%` and the two conversions |
| `Quaternions` | `quaternion.dfy` | quaternions as 4-sequences |
| `Locations` | `locations.dfy` | a closed datatype of the three location classes |

Modelling choices:

- Python float `%` with a positive modulus is `x - m * floor(x / m)`. Its result is in `[0, m)`.
- `np.pi` is the exact rational value of the IEEE double nearest to pi. This keeps every degree/radian conversion linear.
- numpy's `sqrt`, `acos`, `sin`, `cos` and the `unit()` method are fields of a `Numerics` value passed to the functions that call them. `unit()` is called in `from_rotation_about_axis` but is not defined by `Vector` or `Vector3D`. A lemma that needs one of these functions states the law it needs, only at the points where it needs it: for example a square root at one argument, or sin² + cos² = 1 at one angle.
- A Python argument that may have the wrong type is an `Arg<T>`: `Instance(value)` or `NotInstance`. The resulting `TypeError` is modelled as an `Err` result.
- `Location.__add__` and `__radd__` have identical bodies, so both are `Locations.Displace`. Hence `v + a == a + v` holds by construction.

## Model

| member | source | states |
|---|---|---|
| VectorAlg.ResolveIndex | python/geometric_tools/vector_alg.py:65-69 | an index is valid exactly when it lies in [-n, n); a negative index counts from the end; any other index is an IndexError |
| VectorAlg.Add | python/geometric_tools/vector_alg.py:24-27 | equal-length operands are added component by component and the length is kept |
| VectorAlg.Sub | python/geometric_tools/vector_alg.py:29-32 | equal-length operands are subtracted component by component and the length is kept |
| VectorAlg.Scale | python/geometric_tools/vector_alg.py:34-42 | left and right scaling both multiply every component by the scalar, keeping the length |
| VectorAlg.Neg | python/geometric_tools/vector_alg.py:44-45 | negation (scaling by -1) negates every component |
| VectorAlg.Div | python/geometric_tools/vector_alg.py:47-48 | division by 0 is a ZeroDivisionError; otherwise the quotient scaled back by s gives the vector again |
| VectorAlg.Equal | python/geometric_tools/vector_alg.py:50-55 | true exactly when the lengths agree and every component matches; never an error |
| VectorAlg.SubIsAddNeg | python/geometric_tools/vector_alg.py:29-32 | a - b == a + (-b) |
| VectorAlg.NegNeg | python/geometric_tools/vector_alg.py:44-45 | -(-v) == v |
| VectorAlg.AddSubCancel | python/geometric_tools/vector_alg.py:24-32 | (a + b) - a == b |
| VectorAlg.AddCommutes | python/geometric_tools/vector_alg.py:24-27 | a + b == b + a |
| VectorAlg.Dot | python/geometric_tools/vector_alg.py:76-78 | the sum of the component products; specified by DotSymmetric, DotSelfNonNegative, DotSelfPositive, DotSelfZero and DotScale below |
| VectorAlg.DotSymmetric | python/geometric_tools/vector_alg.py:76-78 | dot(a, b) == dot(b, a) |
| VectorAlg.DotSelfNonNegative | python/geometric_tools/vector_alg.py:76-78 | dot(v, v) >= 0 |
| VectorAlg.DotSelfPositive | python/geometric_tools/vector_alg.py:76-78 | a vector with a non-zero component has dot(v, v) > 0 |
| VectorAlg.DotSelfOfZero | python/geometric_tools/vector_alg.py:76-78 | the zero vector has dot(v, v) == 0 |
| VectorAlg.DotSelfZero | python/geometric_tools/vector_alg.py:76-78 | dot(v, v) == 0 exactly for the zero vector |
| VectorAlg.DotScale | python/geometric_tools/vector_alg.py:76-78 | dot(s a, b) == s dot(a, b) |
| VectorAlg.Vector.constructor | python/geometric_tools/vector_alg.py:12-19 | the array holds exactly the arguments, so the size is their number (0 for none) |
| VectorAlg.Vector.GetItem | python/geometric_tools/vector_alg.py:65-66 | reads the resolved slot, or raises IndexError outside [-n, n) |
| VectorAlg.Vector.SetItem | python/geometric_tools/vector_alg.py:68-69 | changes the resolved slot only and keeps the size; out of range it raises IndexError and changes nothing |
| Vector3.ComponentIndex | python/geometric_tools/vector_3d.py:21-26 | only the names x, y, z have an index (their position in the component list); any other name is a ValueError |
| Vector3.Cross | python/geometric_tools/vector_3d.py:36-42 | the right-handed cross product; specified by CrossOrthogonal, CrossAntiSymmetric, CrossSelf and CrossWithE1 below |
| Vector3.CrossOrthogonal | python/geometric_tools/vector_3d.py:36-42 | cross(a, b) is orthogonal to a and to b |
| Vector3.CrossAntiSymmetric | python/geometric_tools/vector_3d.py:36-42 | cross(a, b) == -cross(b, a) |
| Vector3.CrossSelf | python/geometric_tools/vector_3d.py:36-42 | cross(a, a) is the zero vector |
| Vector3.CrossWithE1 | python/geometric_tools/vector_3d.py:36-42 | e1 x e2 = e3, e1 x e3 = -e2, e1 x (1,1,1) = (0,-1,1), e1 x e1 = 0 |
| Vector3.Vector3D.Value | python/geometric_tools/vector_3d.py:14-16 | under the sync invariant the array reads (x, y, z) |
| Vector3.Vector3D.FromBase | python/geometric_tools/vector_3d.py:14-16 | x, y, z are read from array slots 0, 1, 2 and the array is not changed |
| Vector3.Vector3D.Create | python/geometric_tools/vector_3d.py:10-16 | construction succeeds exactly with three components, and then x, y, z equal them; otherwise ValueError |
| Vector3.Vector3D.Size | python/geometric_tools/vector_3d.py:18-19 | the size is always 3, the size of the inherited array |
| Vector3.Vector3D.SetAttr | python/geometric_tools/vector_3d.py:21-27 | assigning x, y or z changes that field and its array slot only; any other name leaves the array alone; the sync invariant is kept |
| Vector3.Vector3D.SetItem | python/geometric_tools/vector_3d.py:29-33 | indices 0..2 and -3..-1 set one component (field and slot); any other index raises IndexError and changes nothing |
| Elementary.Mag | python/geometric_tools/vector_alg.py:71-73 | sqrt(dot(v, v)) with sqrt as a parameter; specified by MagZero below |
| Elementary.MagZero | python/geometric_tools/vector_alg.py:71-73 | given a true square root, the magnitude is non-negative and zero exactly for the zero vector |
| Angles.Mod | python/geometric_tools/angles.py:5 | Python's float remainder by a positive modulus lies in [0, m) |
| Angles.ModUnique | python/geometric_tools/angles.py:5 | the remainder is the unique value x - k m in [0, m) for an integer k, which fully describes Python's float `%` by a positive modulus |
| Angles.ModPeriodic | python/geometric_tools/angles.py:5 | adding whole moduli does not change the remainder |
| Angles.ModOfInRange | python/geometric_tools/angles.py:5 | a value in [0, m) is its own remainder |
| Angles.DegreesToRadians | python/geometric_tools/angles.py:4-5 | the result lies in [0, 2 pi) |
| Angles.RadiansToDegrees | python/geometric_tools/angles.py:8-9 | the result lies in [0, 360) |
| Angles.DegreesToRadiansOfNormalized | python/geometric_tools/angles.py:5 | on [0, 360) the conversion is d pi / 180 |
| Angles.RadiansToDegreesOfNormalized | python/geometric_tools/angles.py:9 | on [0, 2 pi) the conversion is r 180 / pi |
| Angles.DegreesToRadiansPeriodic | python/geometric_tools/angles.py:5 | d2r(d + 360 k) == d2r(d) for every integer k |
| Angles.RadiansToDegreesPeriodic | python/geometric_tools/angles.py:9 | r2d(r + 2 pi k) == r2d(r) for every integer k |
| Angles.RadiansToDegreesOfDegreesToRadians | python/geometric_tools/angles.py:4-9 | r2d(d2r(d)) == d mod 360 |
| Angles.DegreesToRadiansOfRadiansToDegrees | python/geometric_tools/angles.py:4-9 | d2r(r2d(r)) == r mod 2 pi |
| Quaternions.Product | python/geometric_tools/quaternion.py:49-52 | the 4-term product; specified by ProductParts, ProductIdentity, ProductExamples, ProductAssociative, NormMultiplicative, ConjOfProduct and ProductConj below |
| Quaternions.ProductParts | python/geometric_tools/quaternion.py:46-52 | the product's scalar part is p0 q0 - p.q and its vector part is p0 q + q0 p - p x q (cross term reversed from Hamilton's) |
| Quaternions.ProductIdentity | python/geometric_tools/quaternion.py:46-52 | (1, 0, 0, 0) is a two-sided identity |
| Quaternions.ProductExamples | python/geometric_tools/quaternion.py:46-52 | (1,1,1,1)^2 = (-2,2,2,2); (0,1,0,0)(0,0,1,0) = (0,0,0,-1) while the reverse order gives (0,0,0,1) |
| Quaternions.ProductAssociative | python/geometric_tools/quaternion.py:46-52 | the product is associative |
| Quaternions.NormMultiplicative | python/geometric_tools/quaternion.py:46-52 | the squared norm of a product is the product of the squared norms |
| Quaternions.Conj | python/geometric_tools/quaternion.py:54-55 | inv keeps q0 and negates exactly the vector part |
| Quaternions.ConjConj | python/geometric_tools/quaternion.py:54-55 | inv is an involution |
| Quaternions.ConjNorm | python/geometric_tools/quaternion.py:54-55 | inv keeps the squared norm |
| Quaternions.ConjOfProduct | python/geometric_tools/quaternion.py:46-55 | inv(p q) == inv(q) inv(p) |
| Quaternions.ProductConj | python/geometric_tools/quaternion.py:46-55 | q inv(q) == inv(q) q == (|q|^2, 0, 0, 0) |
| Quaternions.Mul | python/geometric_tools/quaternion.py:46-52 | as written, only a quaternion operand succeeds, and its result is the product; any other operand, a number included, raises TypeError |
| Quaternions.MulScalarIntended | python/geometric_tools/quaternion.py:46-48 | a quaternion operand gives the product; a number s scales every component, which equals the product with (s, 0, 0, 0) on either side |
| Quaternions.ScalarMulRaises | python/geometric_tools/quaternion.py:46-48 | q * s raises TypeError as written, while the intended result is q (s, 0, 0, 0) |
| Quaternions.FromVector | python/geometric_tools/quaternion.py:35-38 | from_vector(v) is (0, v.x, v.y, v.z); a non-Vector3D raises TypeError |
| Quaternions.ToVectorAsWritten | python/geometric_tools/quaternion.py:40-44 | succeeds exactly when abs(q0) <= 1e-10, giving (q1, q2, q3); otherwise AttributeError |
| Quaternions.ToVector | python/geometric_tools/quaternion.py:40-44 | succeeds exactly when abs(q0) <= 1e-10, giving (q1, q2, q3); otherwise ValueError |
| Quaternions.ToVectorRaisesAttributeError | python/geometric_tools/quaternion.py:40-43 | on (1, 0, 0, 0) the code as written raises AttributeError where ValueError is intended |
| Quaternions.ToVectorOfFromVector | python/geometric_tools/quaternion.py:35-44 | to_vector(from_vector(v)) == v |
| Quaternions.FromRotationAboutAxis | python/geometric_tools/quaternion.py:18-25 | the rotation quaternion is (cos(a/2), sin(a/2) unit(axis)); a non-Vector3D axis raises TypeError |
| Quaternions.RotorIsUnit | python/geometric_tools/quaternion.py:18-25 | with sin^2 + cos^2 = 1 at the half angle and a unit axis, the rotation quaternion has norm 1 |
| Quaternions.QuaternionRotation | python/geometric_tools/quaternion.py:58-65 | succeeds exactly when axis and vector are Vector3D, and then returns the vector part of inv(r) v r; otherwise TypeError (the as-written extraction never fails, because the sandwich is pure) |
| Quaternions.Sandwich | python/geometric_tools/quaternion.py:64 | `rot.inv() * v * rot` evaluated left to right; specified by SandwichIsPure, SandwichPreservesNorm and QuarterTurnSandwich below |
| Quaternions.SandwichIsPure | python/geometric_tools/quaternion.py:62-65 | for any r and pure v, inv(r) v r has scalar part exactly 0, so the final to_vector cannot fail |
| Quaternions.SandwichPreservesNorm | python/geometric_tools/quaternion.py:62-65 | the sandwich by a unit quaternion keeps the squared norm |
| Quaternions.RotationPreservesLength | python/geometric_tools/quaternion.py:58-65 | with a Pythagorean sin/cos at the half angle and a unit axis, the rotation succeeds and keeps the vector's length |
| Quaternions.QuarterTurnSandwich | python/geometric_tools/quaternion.py:62-64 | with c = s and 2 c^2 = 1 about (0, 0, 1), the sandwich maps (0, 1, 0, 1) to (0, 0, 1, 1) |
| Quaternions.QuarterTurnExample | python/geometric_tools/quaternion.py:58-65 | a quarter turn about (0, 0, 1) maps (1, 0, 1) to (0, 1, 1) |
| Quaternions.RotationRejectsNonVectors | python/geometric_tools/quaternion.py:58-65 | a non-Vector3D axis or vector raises TypeError |
| Locations.FoldPolar | geometric_tools/locations.py:140-143 | theta lands in [0, pi] and is theta mod 2 pi or its reflection 2 pi - (theta mod 2 pi) |
| Locations.FoldLatitude | geometric_tools/locations.py:188 | the latitude lands in [-180, 180) and differs from the input by whole turns |
| Locations.FoldLongitude | geometric_tools/locations.py:189-192 | the longitude lands in [-90, 90], either shifted by whole turns or reflected about 90 |
| Locations.MakeSphCoords | geometric_tools/locations.py:138-144 | theta is folded into [0, pi], phi is reduced into [0, 2 pi), and r is kept |
| Locations.MakeGeo | geometric_tools/locations.py:187-193 | lat is in [-180, 180) and lon in [-90, 90], with the folds above; alt is kept |
| Locations.MakeSphCoordsOfValid | geometric_tools/locations.py:138-144 | already-normalised values are stored unchanged |
| Locations.MakeGeoOfValid | geometric_tools/locations.py:187-193 | already-normalised values are stored unchanged |
| Locations.MakeSphCoordsIdempotent | geometric_tools/locations.py:138-144 | constructing again from a constructed SphCoords changes nothing |
| Locations.MakeGeoIdempotent | geometric_tools/locations.py:187-193 | constructing again from a constructed Geo changes nothing |
| Locations.MakeSphCoordsPeriodic | geometric_tools/locations.py:138-144 | whole turns added to theta or phi do not change the result |
| Locations.MakeGeoPeriodic | geometric_tools/locations.py:187-193 | whole turns of 360 added to lat or lon do not change the result |
| Locations.ConstructorExamples | geometric_tools/locations.py:138-193 | SphCoords(1,2,3) and Geo(1,2,3) are unchanged; Geo(190,-100,3) stores (-170,-80,3) |
| Locations.SphToGeo | geometric_tools/locations.py:170-177 | the result is a normalised Geo at altitude r - 6378.137 |
| Locations.GeoToSph | geometric_tools/locations.py:210-217 | the result is a normalised SphCoords at radius 6378.137 + alt |
| Locations.EcefToSph | geometric_tools/locations.py:105-123 | the result is a normalised SphCoords whose r is the point's magnitude |
| Locations.SphToEcef | geometric_tools/locations.py:155-162 | the result is an ECEF point; with sin and cos as parameters, SphToEcefRadius below places it at distance r |
| Locations.SphToEcefRadius | geometric_tools/locations.py:155-162 | with sin^2 + cos^2 = 1 at theta and phi, the ECEF point lies at distance r from the centre |
| Locations.ToEcef | geometric_tools/locations.py:99-103 | the result is ECEF, and ecef() of an ECEF is itself |
| Locations.ToSph | geometric_tools/locations.py:164-168 | the result is SphCoords, sph_coords() of a SphCoords is itself, and every converted one is normalised |
| Locations.ToGeo | geometric_tools/locations.py:219-223 | the result is Geo, geo() of a Geo is itself, and every converted one is normalised |
| Locations.Vec | geometric_tools/locations.py:93-97 | the vector of an ECEF location is (x, y, z) |
| Locations.VecOfEcef | geometric_tools/locations.py:17-21 | the inherited `_vec` of any location is the vector of its `ecef()` |
| Locations.FromVector | geometric_tools/locations.py:84-199 | the three `_from_vector` methods (lines 84-88, 146-150, 195-199): succeeds exactly for a Vector3D, building the requested class, normalised; an ECEF gives the vector back; a SphCoords has r equal to the vector's magnitude; a Geo has altitude magnitude - 6378.137; otherwise TypeError |
| Locations.Displace | geometric_tools/locations.py:32-48 | succeeds exactly for a Vector3D and keeps the location's class, normalised; an ECEF is moved by the vector; otherwise TypeError |
| Locations.Difference | geometric_tools/locations.py:50-54 | b's vector plus (a - b) is a's vector |
| Locations.DisplaceEcef | geometric_tools/locations.py:32-39 | ECEF(x, y, z) + v == ECEF(x + v.x, y + v.y, z + v.z) |
| Locations.DisplaceThenDifference | geometric_tools/locations.py:32-54 | for an ECEF a, (a + v) - a == v |
| Locations.NonVectorRaises | geometric_tools/locations.py:36-39 | displacing by a non-Vector3D, or _from_vector of any class with one, raises TypeError |
| Locations.OriginToSph | geometric_tools/locations.py:109-111 | ECEF(0, 0, 0) converts to SphCoords(0, 0, 0) |
| Locations.ZAxisToSph | geometric_tools/locations.py:112-119 | a point on the z axis gets phi = 0, and theta = 0 above the x-y plane, pi below |
| Locations.SphGeoSphRoundTrip | geometric_tools/locations.py:170-217 | SphCoords to Geo and back keeps r and theta; phi is kept on [0, pi/2] and [3 pi/2, 2 pi) and becomes (pi - phi) mod 2 pi in between |
| Locations.PolarThroughLatitude | geometric_tools/locations.py:170-217 | theta in [0, pi] survives the trip through latitude 90 - theta |
| Locations.AzimuthThroughLongitude | geometric_tools/locations.py:170-217 | phi through the longitude fold and back is phi or (pi - phi) mod 2 pi, by half-space |
| Locations.GeoSphGeoRoundTrip | geometric_tools/locations.py:170-217 | Geo to SphCoords and back is exact for latitudes in [-90, 90] |
| Locations.GeoLosesWestHemisphere | geometric_tools/locations.py:189-192 | as written, ECEF(-1, 0, 0) becomes Geo(0, 0, 1 - Re), whose ECEF form is (1, 0, 0), and displacing that Geo by (-2, 0, 0) returns it unchanged (given sqrt, acos, sin and cos at 1, -1, 0 and pi/2) |
| Locations.MakeGeoIntended | geometric_tools/locations.py:187-193 | the intended Geo constructor: latitude and longitude each wrapped by whole turns into [-180, 180), altitude kept |
| Locations.SphToGeoIntended | geometric_tools/locations.py:170-177 | `geo()` of a SphCoords through the intended constructor: a Geo at altitude r - 6378.137 with longitude in [-180, 180) |
| Locations.AzimuthThroughLongitudeIntended | geometric_tools/locations.py:170-217 | with the intended fold, every phi in [0, 2 pi) survives the trip through the longitude unchanged |
| Locations.LongitudeThroughAzimuthIntended | geometric_tools/locations.py:170-217 | with the intended fold, every longitude in [-180, 180) survives the trip through the azimuth |
| Locations.SphGeoSphRoundTripIntended | geometric_tools/locations.py:170-217 | with the intended fold, SphCoords to Geo and back is exact |
| Locations.GeoSphGeoRoundTripIntended | geometric_tools/locations.py:170-217 | with the intended fold, Geo to SphCoords and back is exact for latitudes in [-90, 90] |
| Locations.WestPointKeptIntended | geometric_tools/locations.py:170-217 | with the intended fold, ECEF(-1, 0, 0) gets longitude -180 and converts back to (-1, 0, 0) |
| Locations.FieldsDetermine | geometric_tools/locations.py:56-67 | two locations of the same class are equal exactly when their attributes are |
| Locations.Equals | geometric_tools/locations.py:56-67 | the field scan returns true exactly for a location of the same class with the same attributes; it returns false for another class or a non-location |

## Left out

- Floating point: every quantity is a real number. IEEE rounding and the boundary effects of float `%` near a multiple of the modulus are not modelled, nor are NaN and infinities.
- General trigonometry: `sqrt`, `acos`, `sin` and `cos` have no definitions. The general `ECEF.sph_coords` (locations.py:112-123) and `SphCoords.ecef` (locations.py:155-162) are modelled structurally. The round trip ECEF to SphCoords and back holds only approximately, through trigonometry, and is not stated. ECEF to Geo and back is not even approximate: it mirrors every point with x < 0 (see Findings).
- Quaternion `to_angle_and_unit` (quaternion.py:27-32) is not modelled: it only recovers an angle through acos and sin.
- `vec.unit()` in `from_rotation_about_axis` is called on a Vector3D, and no visible class defines it. It is a parameter of the model.
- numpy broadcasting of operands of different lengths: `VectorAlg.Add`, `VectorAlg.Sub` and `VectorAlg.Dot` require equal lengths. The source broadcasts a size-1 operand and raises ValueError for other mismatches.
- VectorAlg.Vector.SetItem: the components are reals. A `Vector` built from Python ints holds an integer numpy array, and assigning 0.5 into it stores 0. On such a `Vector3D`, `v.x = 0.5` then writes 0 into slot 0 but 0.5 into the attribute x. So in the source the sync that `Vector3D.Valid()` states can break for integer-built vectors. The model does not capture this truncation.
- Array aliasing: `Vector(ndarray)` shares the caller's array. The model's constructor copies the arguments.
- `Vector3D` arithmetic results: in Python they are new `Vector3D` objects. The model works on their `Vec3` values.
- `__str__` of vectors and locations depends on float formatting and is not modelled.
- Operator dispatch: `NotImplemented`, the misnamed `__neq__`, and `__rmul__`'s TypeError for a non-number are not modelled. Only the resulting behaviour of each operator is.
- The abstract `Location` base class and its NotImplementedError paths: the three classes form a closed datatype.
- `Location.__sub__` with a right operand that is not a location is not modelled. In Python it fails looking up `_vec`.
- `Location.__eq__` skips callable attributes and catches a missing attribute. Locations built by their constructors have neither, so the scan in `Equals` compares the three stored attributes.
- Locations.Displace: for SphCoords, (a + v) - a == v holds only approximately, through trigonometry, and is not stated. For Geo it fails whenever a + v has x < 0, because of the longitude fold (Locations.GeoLosesWestHemisphere).
- Locations.GeoSphGeoRoundTrip: stated only for latitudes in [-90, 90]. A stored latitude outside that range does not survive the trip through the polar angle.

Where the code and its own comments disagree, the model follows the code:

- Geo stores latitudes in [-180, 180), while the comment at locations.py:188 says "between -180 and 180" (the value 180 itself becomes -180). Longitudes land in the closed [-90, 90], as the comment at locations.py:192 says; both endpoints occur.
- `v / 0` raises ZeroDivisionError, because `1. / 0` is evaluated on a Python float before numpy is involved. Here `s` stands for a Python number: a numpy zero such as `np.float64(0)` would give inf instead.

## Findings

| source | as written | input that shows it | evidently intended | confidence | as-written member | corrected member |
|---|---|---|---|---|---|---|
| python/geometric_tools/quaternion.py:46-48 | a non-Quaternion operand goes to `Vector.__mul__`, which calls `Quaternion(other * array)` with one argument where four are required, so a number raises TypeError. The same `self.__class__(ndarray)` call also breaks Quaternion `+`, `-`, unary `-`, `/` and `2 * q` (vector_alg.py:27, 32, 42, 45, 48) | `Quaternion(1, 0, 0, 0) * 2` | multiplying by a number scales every component | not executed | Quaternions.ScalarMulRaises | Quaternions.MulScalarIntended |
| python/geometric_tools/quaternion.py:40-43 | the failing branch formats `self.q0`, which a Quaternion does not have, so AttributeError replaces the intended ValueError | `Quaternion(1, 0, 0, 0).to_vector()` | ValueError when abs(q0) > 1e-10 | not executed | Quaternions.ToVectorRaisesAttributeError | Quaternions.ToVector |
| geometric_tools/locations.py:189-192 | the Geo constructor reflects a longitude above 90 to 180 - lon, so every point with x < 0 is stored as its mirror image across the y-z plane; geo() and then ecef() of ECEF(-1, 0, 0) gives (1, 0, 0), and Geo(0, 0, 1 - Re) + Vector3D(-2, 0, 0) == Geo(0, 0, 1 - Re) | `ECEF(-1, 0, 0).geo()` | the longitude wrapped by whole turns only, into [-180, 180), so that every azimuth survives | not executed | Locations.GeoLosesWestHemisphere | Locations.MakeGeoIntended |

The conversions `ToGeo`, `FromVector` and `Displace` keep the Geo constructor as written (`MakeGeo`), because they model what the code does; the `...Intended` members state the corrected behaviour beside them.
