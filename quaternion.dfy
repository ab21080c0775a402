/** The quaternion engine of `quaternion.py`: the 4-term product, the
    conjugate `inv`, embedding and extracting 3-vectors, rotation
    quaternions and the sandwich used by `quaternion_rotation`. */
module Quaternions {
  import opened Outcomes
  import opened VectorAlg
  import opened Vector3
  import opened Elementary

  /** A Quaternion: a Vector of exactly four components (q0, q1, q2, q3). */
  type Quat = q: seq<real> | |q| == 4 witness [0.0, 0.0, 0.0, 0.0]

  /** `Quaternion._fudge`, the tolerance of `to_vector`. */
  const Fudge: real := 0.0000000001

  /** The identity quaternion (1, 0, 0, 0). */
  const One: Quat := [1.0, 0.0, 0.0, 0.0]

  /** The vector part (q1, q2, q3). */
  function VecPart(q: Quat): (v: Vec3)
    ensures [q[0]] + v == q
  {
    q[1..]
  }

  /** The squared norm q0^2 + q1^2 + q2^2 + q3^2. */
  function Norm2(q: Quat): real
  {
    q[0] * q[0] + q[1] * q[1] + q[2] * q[2] + q[3] * q[3]
  }

  /** The squared norm is `dot(q, q)`, and splits into the scalar part and
      the vector part. */
  lemma Norm2IsDot(q: Quat)
    ensures Norm2(q) == Dot(q, q) == q[0] * q[0] + Dot(VecPart(q), VecPart(q))
  {
    Dot3(VecPart(q), VecPart(q));
    assert q[1..] == VecPart(q);
  }

  /** The four components of `p * q`, one expression each, over the
      components p0..p3 of `self` and q0..q3 of `other`. */
  function Product0(p0: real, p1: real, p2: real, p3: real, q0: real, q1: real, q2: real, q3: real): real
  {
    p0 * q0 - p1 * q1 - p2 * q2 - p3 * q3
  }

  function Product1(p0: real, p1: real, p2: real, p3: real, q0: real, q1: real, q2: real, q3: real): real
  {
    p0 * q1 + p1 * q0 - p2 * q3 + p3 * q2
  }

  function Product2(p0: real, p1: real, p2: real, p3: real, q0: real, q1: real, q2: real, q3: real): real
  {
    p0 * q2 + p2 * q0 - p3 * q1 + p1 * q3
  }

  function Product3(p0: real, p1: real, p2: real, p3: real, q0: real, q1: real, q2: real, q3: real): real
  {
    p0 * q3 + p3 * q0 - p1 * q2 + p2 * q1
  }

  /** `p * q` for two quaternions. */
  function Product(p: Quat, q: Quat): Quat
  {
    [Product0(p[0], p[1], p[2], p[3], q[0], q[1], q[2], q[3]),
     Product1(p[0], p[1], p[2], p[3], q[0], q[1], q[2], q[3]),
     Product2(p[0], p[1], p[2], p[3], q[0], q[1], q[2], q[3]),
     Product3(p[0], p[1], p[2], p[3], q[0], q[1], q[2], q[3])]
  }

  /** The scalar part of `p * q` is p0 q0 - p.q and its vector part is
      p0 q + q0 p - p x q: the cross term has the opposite sign to
      Hamilton's product, so `p * q` here is Hamilton's `q p`. */
  lemma ProductParts(p: Quat, q: Quat)
    ensures Product(p, q)[0] == p[0] * q[0] - Dot(VecPart(p), VecPart(q))
    ensures VecPart(Product(p, q)) ==
      Sub(Add(Scale(p[0], VecPart(q)), Scale(q[0], VecPart(p))), Cross(VecPart(p), VecPart(q)))
  {
    ProductScalarPart(p, q);
    var expected := Sub(Add(Scale(p[0], VecPart(q)), Scale(q[0], VecPart(p))), Cross(VecPart(p), VecPart(q)));
    ProductVectorPart(p, q, 0);
    ProductVectorPart(p, q, 1);
    ProductVectorPart(p, q, 2);
    Vec3Ext(VecPart(Product(p, q)), expected);
  }

  lemma ProductScalarPart(p: Quat, q: Quat)
    ensures Product(p, q)[0] == p[0] * q[0] - Dot(VecPart(p), VecPart(q))
  {
    Dot3(VecPart(p), VecPart(q));
  }

  lemma ProductVectorPart(p: Quat, q: Quat, i: nat)
    requires i < 3
    ensures VecPart(Product(p, q))[i] ==
      Sub(Add(Scale(p[0], VecPart(q)), Scale(q[0], VecPart(p))), Cross(VecPart(p), VecPart(q)))[i]
  {
    var pv, qv := VecPart(p), VecPart(q);
    var sp, sq, c := Scale(p[0], qv), Scale(q[0], pv), Cross(pv, qv);
    var expected := Sub(Add(sp, sq), c);
    assert expected[i] == sp[i] + sq[i] - c[i];
    assert VecPart(Product(p, q))[i] == Product(p, q)[i + 1];
  }

  lemma Vec3Ext(a: Vec3, b: Vec3)
    requires a[0] == b[0] && a[1] == b[1] && a[2] == b[2]
    ensures a == b
  {
    assert forall i | 0 <= i < 3 :: a[i] == b[i];
  }

  lemma QuatExt(a: Quat, b: Quat)
    requires a[0] == b[0] && a[1] == b[1] && a[2] == b[2] && a[3] == b[3]
    ensures a == b
  {
    assert forall i | 0 <= i < 4 :: a[i] == b[i];
  }

  /** `q.inv()`: the conjugate, which keeps q0 and negates the vector part. */
  function Conj(q: Quat): (r: Quat)
    ensures r[0] == q[0] && VecPart(r) == Neg(VecPart(q))
  {
    [q[0], -q[1], -q[2], -q[3]]
  }

  /** The right operand of `p * other`, as `__mul__` tells it apart. */
  datatype Factor = ScalarFactor(s: real) | QuaternionFactor(q: Quat) | OtherFactor

  /** `p * other` as written. Any non-quaternion goes to `Vector.__mul__`,
      which builds `Quaternion(other * array)`: a single argument where four
      are required, so a number raises TypeError as well. */
  function Mul(p: Quat, other: Factor): (r: Result<Quat>)
    ensures r.Ok? <==> other.QuaternionFactor?
    ensures r.Err? ==> r.error == TypeError
    ensures other.QuaternionFactor? ==> r == Ok(Product(p, other.q))
  {
    match other
    case QuaternionFactor(q) => Ok(Product(p, q))
    case _ => Err(TypeError)
  }

  /** `p * other` as intended: a number scales every component, which is the
      product with the real quaternion (s, 0, 0, 0) on either side. */
  function MulScalarIntended(p: Quat, other: Factor): (r: Result<Quat>)
    ensures r.Ok? <==> !other.OtherFactor?
    ensures r.Err? ==> r.error == TypeError
    ensures other.QuaternionFactor? ==> r == Ok(Product(p, other.q))
    ensures other.ScalarFactor? ==>
      r.value == Product(p, [other.s, 0.0, 0.0, 0.0]) == Product([other.s, 0.0, 0.0, 0.0], p)
  {
    match other
    case QuaternionFactor(q) => Ok(Product(p, q))
    case ScalarFactor(s) =>
      var sq: Quat := [s, 0.0, 0.0, 0.0];
      var scaled := Scale(s, p);
      QuatExt(scaled, Product(p, sq));
      QuatExt(scaled, Product(sq, p));
      Ok(scaled)
    case OtherFactor => Err(TypeError)
  }

  /** A quaternion times a number raises instead of scaling. */
  lemma ScalarMulRaises(p: Quat, s: real)
    ensures Mul(p, ScalarFactor(s)) == Err(TypeError)
    ensures MulScalarIntended(p, ScalarFactor(s)) == Ok(Product(p, [s, 0.0, 0.0, 0.0]))
  {
  }

  /** `Quaternion.from_vector(v)`: (0, v.x, v.y, v.z); a non-Vector3D raises TypeError. */
  function FromVector(v: Arg<Vec3>): (r: Result<Quat>)
    ensures r.Ok? <==> v.Instance?
    ensures r.Err? ==> r.error == TypeError
    ensures r.Ok? ==> r.value[0] == 0.0 && VecPart(r.value) == v.value
  {
    match v
    case Instance(w) => Ok([0.0] + w)
    case NotInstance => Err(TypeError)
  }

  function Abs(x: real): real
  {
    if x < 0.0 then -x else x
  }

  /** `q.to_vector()` as written: the failing branch formats `self.q0`, an
      attribute a Quaternion does not have, so AttributeError escapes
      before the intended ValueError can be raised. */
  function ToVectorAsWritten(q: Quat): (r: Result<Vec3>)
    ensures r.Ok? <==> Abs(q[0]) <= Fudge
    ensures r.Err? ==> r.error == AttributeError
    ensures r.Ok? ==> [0.0] + r.value == q[0 := 0.0]
  {
    if Abs(q[0]) > Fudge then Err(AttributeError) else Ok(VecPart(q))
  }

  /** `q.to_vector()` as intended: (q1, q2, q3) when |q0| is within the
      tolerance, otherwise ValueError. */
  function ToVector(q: Quat): (r: Result<Vec3>)
    ensures r.Ok? <==> Abs(q[0]) <= Fudge
    ensures r.Err? ==> r.error == ValueError
    ensures r.Ok? ==> [0.0] + r.value == q[0 := 0.0]
  {
    if Abs(q[0]) > Fudge then Err(ValueError) else Ok(VecPart(q))
  }

  /** The extraction fails on (1, 0, 0, 0) with AttributeError, not ValueError. */
  lemma ToVectorRaisesAttributeError()
    ensures ToVectorAsWritten(One) == Err(AttributeError)
    ensures ToVector(One) == Err(ValueError)
  {
  }

  /** Extracting an embedded vector gives it back. */
  lemma ToVectorOfFromVector(v: Vec3)
    ensures FromVector(Instance(v)).Ok?
    ensures ToVector(FromVector(Instance(v)).value) == Ok(v)
  {
    assert VecPart([0.0] + v) == v;
  }

  /** The rotation quaternion (c, s u) for half-angle cosine c, sine s and unit axis u. */
  function Rotor(c: real, s: real, u: Vec3): (r: Quat)
    ensures r[0] == c && VecPart(r) == Scale(s, u)
  {
    [c] + Scale(s, u)
  }

  /** A rotor built from a Pythagorean (c, s) and a unit axis has norm one. */
  lemma RotorIsUnit(c: real, s: real, u: Vec3)
    requires c * c + s * s == 1.0 && Dot(u, u) == 1.0
    ensures Norm2(Rotor(c, s, u)) == 1.0
  {
    DotScale(s, u, Scale(s, u));
    DotSymmetric(u, Scale(s, u));
    DotScale(s, u, u);
    Norm2IsDot(Rotor(c, s, u));
    calc {
      Norm2(Rotor(c, s, u));
      == c * c + Dot(Scale(s, u), Scale(s, u));
      == c * c + s * Dot(u, Scale(s, u));
      == c * c + s * Dot(Scale(s, u), u);
      == c * c + s * (s * Dot(u, u));
      == c * c + s * s;
      == 1.0;
    }
  }

  /** `Quaternion.from_rotation_about_axis(angle, axis)`: (cos(angle/2),
      sin(angle/2) axis.unit()); a non-Vector3D axis raises TypeError. */
  function FromRotationAboutAxis(angle: real, axis: Arg<Vec3>, m: Numerics): (r: Result<Quat>)
    ensures r.Ok? <==> axis.Instance?
    ensures r.Err? ==> r.error == TypeError
    ensures r.Ok? ==> r.value == Rotor(m.cos(angle / 2.0), m.sin(angle / 2.0), m.unit(axis.value))
  {
    match axis
    case Instance(v) =>
      var unit := m.unit(v);
      var qvec := Scale(m.sin(angle / 2.0), unit);
      Ok([m.cos(angle / 2.0), qvec[0], qvec[1], qvec[2]])
    case NotInstance => Err(TypeError)
  }

  /** `rot.inv() * v * rot`, evaluated left to right. */
  function Sandwich(rot: Quat, v: Quat): Quat
  {
    Product(Product(Conj(rot), v), rot)
  }

  /** `quaternion_rotation(angle, axis, vec)`: rotates `vec` about `axis`.
      The extraction is `to_vector` as written; the sandwich of a pure
      quaternion is pure, so its failing branch is never reached. */
  function QuaternionRotation(angle: real, axis: Arg<Vec3>, vec: Arg<Vec3>, m: Numerics): (r: Result<Vec3>)
    ensures r.Ok? <==> axis.Instance? && vec.Instance?
    ensures r.Err? ==> r.error == TypeError
    ensures r.Ok? ==>
      [0.0] + r.value == Sandwich(FromRotationAboutAxis(angle, axis, m).value, FromVector(vec).value)
  {
    var rot :- FromRotationAboutAxis(angle, axis, m);
    var qvec :- FromVector(vec);
    SandwichIsPure(rot, qvec);
    ToVectorAsWritten(Sandwich(rot, qvec))
  }

  /** The conjugate is an involution. */
  lemma ConjConj(q: Quat)
    ensures Conj(Conj(q)) == q
  {
  }

  /** (1, 0, 0, 0) is a two-sided identity of the product. */
  lemma ProductIdentity(q: Quat)
    ensures Product(One, q) == q && Product(q, One) == q
  {
  }

  /** The products checked against known values, including a pair that
      shows the product is not commutative. */
  lemma ProductExamples()
    ensures Product([1.0, 1.0, 1.0, 1.0], [1.0, 1.0, 1.0, 1.0]) == [-2.0, 2.0, 2.0, 2.0]
    ensures Product([0.0, 1.0, 0.0, 0.0], [0.0, 0.0, 1.0, 0.0]) == [0.0, 0.0, 0.0, -1.0]
    ensures Product([0.0, 0.0, 1.0, 0.0], [0.0, 1.0, 0.0, 0.0]) == [0.0, 0.0, 0.0, 1.0]
  {
  }

  /** Associativity, component by component, as identities between
      polynomials in the components of p, q and r. */
  lemma AssociativeAt0(p0: real, p1: real, p2: real, p3: real,
                       q0: real, q1: real, q2: real, q3: real,
                       r0: real, r1: real, r2: real, r3: real)
    ensures Product0(Product0(p0, p1, p2, p3, q0, q1, q2, q3), Product1(p0, p1, p2, p3, q0, q1, q2, q3),
                     Product2(p0, p1, p2, p3, q0, q1, q2, q3), Product3(p0, p1, p2, p3, q0, q1, q2, q3),
                     r0, r1, r2, r3)
         == Product0(p0, p1, p2, p3,
                     Product0(q0, q1, q2, q3, r0, r1, r2, r3), Product1(q0, q1, q2, q3, r0, r1, r2, r3),
                     Product2(q0, q1, q2, q3, r0, r1, r2, r3), Product3(q0, q1, q2, q3, r0, r1, r2, r3))
  {
  }

  lemma AssociativeAt1(p0: real, p1: real, p2: real, p3: real,
                       q0: real, q1: real, q2: real, q3: real,
                       r0: real, r1: real, r2: real, r3: real)
    ensures Product1(Product0(p0, p1, p2, p3, q0, q1, q2, q3), Product1(p0, p1, p2, p3, q0, q1, q2, q3),
                     Product2(p0, p1, p2, p3, q0, q1, q2, q3), Product3(p0, p1, p2, p3, q0, q1, q2, q3),
                     r0, r1, r2, r3)
         == Product1(p0, p1, p2, p3,
                     Product0(q0, q1, q2, q3, r0, r1, r2, r3), Product1(q0, q1, q2, q3, r0, r1, r2, r3),
                     Product2(q0, q1, q2, q3, r0, r1, r2, r3), Product3(q0, q1, q2, q3, r0, r1, r2, r3))
  {
  }

  lemma AssociativeAt2(p0: real, p1: real, p2: real, p3: real,
                       q0: real, q1: real, q2: real, q3: real,
                       r0: real, r1: real, r2: real, r3: real)
    ensures Product2(Product0(p0, p1, p2, p3, q0, q1, q2, q3), Product1(p0, p1, p2, p3, q0, q1, q2, q3),
                     Product2(p0, p1, p2, p3, q0, q1, q2, q3), Product3(p0, p1, p2, p3, q0, q1, q2, q3),
                     r0, r1, r2, r3)
         == Product2(p0, p1, p2, p3,
                     Product0(q0, q1, q2, q3, r0, r1, r2, r3), Product1(q0, q1, q2, q3, r0, r1, r2, r3),
                     Product2(q0, q1, q2, q3, r0, r1, r2, r3), Product3(q0, q1, q2, q3, r0, r1, r2, r3))
  {
  }

  lemma AssociativeAt3(p0: real, p1: real, p2: real, p3: real,
                       q0: real, q1: real, q2: real, q3: real,
                       r0: real, r1: real, r2: real, r3: real)
    ensures Product3(Product0(p0, p1, p2, p3, q0, q1, q2, q3), Product1(p0, p1, p2, p3, q0, q1, q2, q3),
                     Product2(p0, p1, p2, p3, q0, q1, q2, q3), Product3(p0, p1, p2, p3, q0, q1, q2, q3),
                     r0, r1, r2, r3)
         == Product3(p0, p1, p2, p3,
                     Product0(q0, q1, q2, q3, r0, r1, r2, r3), Product1(q0, q1, q2, q3, r0, r1, r2, r3),
                     Product2(q0, q1, q2, q3, r0, r1, r2, r3), Product3(q0, q1, q2, q3, r0, r1, r2, r3))
  {
  }

  /** The product is associative, so `inv(r) * v * r` does not depend on
      the order in which it is evaluated. */
  lemma ProductAssociative(p: Quat, q: Quat, r: Quat)
    ensures Product(Product(p, q), r) == Product(p, Product(q, r))
  {
    AssociativeAt0(p[0], p[1], p[2], p[3], q[0], q[1], q[2], q[3], r[0], r[1], r[2], r[3]);
    AssociativeAt1(p[0], p[1], p[2], p[3], q[0], q[1], q[2], q[3], r[0], r[1], r[2], r[3]);
    AssociativeAt2(p[0], p[1], p[2], p[3], q[0], q[1], q[2], q[3], r[0], r[1], r[2], r[3]);
    AssociativeAt3(p[0], p[1], p[2], p[3], q[0], q[1], q[2], q[3], r[0], r[1], r[2], r[3]);
    QuatExt(Product(Product(p, q), r), Product(p, Product(q, r)));
  }

  /** Conjugation reverses the order of a product. */
  lemma ConjOfProduct(p: Quat, q: Quat)
    ensures Conj(Product(p, q)) == Product(Conj(q), Conj(p))
  {
    QuatExt(Conj(Product(p, q)), Product(Conj(q), Conj(p)));
  }

  /** A quaternion times its conjugate is its squared norm. */
  lemma ProductConj(q: Quat)
    ensures Product(q, Conj(q)) == [Norm2(q), 0.0, 0.0, 0.0]
    ensures Product(Conj(q), q) == [Norm2(q), 0.0, 0.0, 0.0]
  {
    QuatExt(Product(q, Conj(q)), [Norm2(q), 0.0, 0.0, 0.0]);
    QuatExt(Product(Conj(q), q), [Norm2(q), 0.0, 0.0, 0.0]);
  }

  /** Euler's four-square identity: the squared components of the product
      sum to the product of the two sums of squares. */
  lemma FourSquares(p0: real, p1: real, p2: real, p3: real,
                    q0: real, q1: real, q2: real, q3: real)
    ensures
      var a0, a1, a2, a3 := Product0(p0, p1, p2, p3, q0, q1, q2, q3), Product1(p0, p1, p2, p3, q0, q1, q2, q3),
                            Product2(p0, p1, p2, p3, q0, q1, q2, q3), Product3(p0, p1, p2, p3, q0, q1, q2, q3);
      a0 * a0 + a1 * a1 + a2 * a2 + a3 * a3
        == (p0 * p0 + p1 * p1 + p2 * p2 + p3 * p3) * (q0 * q0 + q1 * q1 + q2 * q2 + q3 * q3)
  {
  }

  /** The norm of a product is the product of the norms. */
  lemma NormMultiplicative(p: Quat, q: Quat)
    ensures Norm2(Product(p, q)) == Norm2(p) * Norm2(q)
  {
    FourSquares(p[0], p[1], p[2], p[3], q[0], q[1], q[2], q[3]);
  }

  /** For any rot, the sandwich of a pure quaternion is pure, so the final
      `to_vector` of `quaternion_rotation` cannot fail. */
  lemma SandwichIsPure(rot: Quat, v: Quat)
    requires v[0] == 0.0
    ensures Sandwich(rot, v)[0] == 0.0
  {
  }

  /** Conjugation keeps the norm. */
  lemma ConjNorm(q: Quat)
    ensures Norm2(Conj(q)) == Norm2(q)
  {
  }

  /** The sandwich by a unit quaternion keeps the norm of what it rotates. */
  lemma SandwichPreservesNorm(rot: Quat, v: Quat)
    requires Norm2(rot) == 1.0
    ensures Norm2(Sandwich(rot, v)) == Norm2(v)
  {
    var left := Product(Conj(rot), v);
    calc {
      Norm2(Sandwich(rot, v));
      == { NormMultiplicative(left, rot); }
      Norm2(left) * Norm2(rot);
      == Norm2(left);
      == { NormMultiplicative(Conj(rot), v); }
      Norm2(Conj(rot)) * Norm2(v);
      == { ConjNorm(rot); }
      Norm2(v);
    }
  }

  /** With a Pythagorean sin and cos at the half angle and a unit axis,
      `quaternion_rotation` succeeds and keeps the length of the vector. */
  lemma RotationPreservesLength(angle: real, axis: Vec3, vec: Vec3, m: Numerics)
    requires IsPythagoreanAt(m, angle / 2.0) && IsUnitAt(m, axis)
    ensures QuaternionRotation(angle, Instance(axis), Instance(vec), m).Ok?
    ensures var w := QuaternionRotation(angle, Instance(axis), Instance(vec), m).value;
      Dot(w, w) == Dot(vec, vec)
  {
    var c, s := m.cos(angle / 2.0), m.sin(angle / 2.0);
    var rot, v := Rotor(c, s, m.unit(axis)), [0.0] + vec;
    RotorIsUnit(c, s, m.unit(axis));
    SandwichPreservesNorm(rot, v);
    var w := QuaternionRotation(angle, Instance(axis), Instance(vec), m).value;
    Norm2IsDot(v);
    Norm2IsDot([0.0] + w);
    assert VecPart(v) == vec;
    assert VecPart([0.0] + w) == w;
  }

  /** A quarter turn about the z axis, with the half-angle cosine and sine
      both equal to the root of one half, maps (0, 1, 0, 1) to (0, 0, 1, 1). */
  lemma QuarterTurnSandwich(c: real)
    requires 2.0 * c * c == 1.0
    ensures Sandwich(Rotor(c, c, [0.0, 0.0, 1.0]), [0.0, 1.0, 0.0, 1.0]) == [0.0, 0.0, 1.0, 1.0]
  {
    var rot := Rotor(c, c, [0.0, 0.0, 1.0]);
    assert rot == [c, 0.0, 0.0, c];
    var left := Product(Conj(rot), [0.0, 1.0, 0.0, 1.0]);
    assert left == [c, c, c, c];
    QuatExt(Product(left, rot), [0.0, 0.0, 1.0, 1.0]);
  }

  /** `quaternion_rotation(pi / 2, (0, 0, 1), (1, 0, 1))` gives (0, 1, 1),
      given cos and sin of the half angle that agree and square to one half,
      and a `unit()` that leaves (0, 0, 1) alone. */
  lemma QuarterTurnExample(angle: real, m: Numerics)
    requires m.cos(angle / 2.0) == m.sin(angle / 2.0)
    requires 2.0 * m.cos(angle / 2.0) * m.cos(angle / 2.0) == 1.0
    requires m.unit([0.0, 0.0, 1.0]) == [0.0, 0.0, 1.0]
    ensures QuaternionRotation(angle, Instance([0.0, 0.0, 1.0]), Instance([1.0, 0.0, 1.0]), m)
         == Ok([0.0, 1.0, 1.0])
  {
    QuarterTurnSandwich(m.cos(angle / 2.0));
    assert FromVector(Instance([1.0, 0.0, 1.0])).value == [0.0, 1.0, 0.0, 1.0];
    var w := QuaternionRotation(angle, Instance([0.0, 0.0, 1.0]), Instance([1.0, 0.0, 1.0]), m).value;
    assert [0.0] + w == [0.0, 0.0, 1.0, 1.0];
    assert w == ([0.0] + w)[1..];
  }

  /** A non-Vector3D axis or vector raises TypeError. */
  lemma RotationRejectsNonVectors(angle: real, v: Vec3, m: Numerics)
    ensures QuaternionRotation(angle, NotInstance, Instance(v), m) == Err(TypeError)
    ensures QuaternionRotation(angle, Instance(v), NotInstance, m) == Err(TypeError)
  {
  }
}
