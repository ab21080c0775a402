/** The numpy routines that the core calls but does not define (sqrt, acos,
    sin, cos) and the `unit()` method it calls on a rotation axis. They are
    passed in as functions; a lemma that depends on one of them states the
    law it needs at the points where it needs it. */
module Elementary {
  import opened VectorAlg
  import opened Vector3

  datatype Numerics = Numerics(
    sqrt: real -> real,
    acos: real -> real,
    sin: real -> real,
    cos: real -> real,
    unit: Vec3 -> Vec3)

  /** `sqrt` returns the non-negative square root of `t`. */
  predicate IsSqrtAt(m: Numerics, t: real)
  {
    0.0 <= m.sqrt(t) && m.sqrt(t) * m.sqrt(t) == t
  }

  /** sin(t)^2 + cos(t)^2 == 1 at `t`. */
  predicate IsPythagoreanAt(m: Numerics, t: real)
  {
    m.sin(t) * m.sin(t) + m.cos(t) * m.cos(t) == 1.0
  }

  /** `unit()` returns a vector of length one for `v`. */
  predicate IsUnitAt(m: Numerics, v: Vec3)
  {
    Dot(m.unit(v), m.unit(v)) == 1.0
  }

  /** `v.mag()`, the Euclidean length `sqrt(dot(v, v))`. */
  function Mag(m: Numerics, v: seq<real>): real
  {
    m.sqrt(Dot(v, v))
  }

  /** The length is non-negative and vanishes exactly for the zero vector. */
  lemma MagZero(m: Numerics, v: seq<real>)
    requires IsSqrtAt(m, Dot(v, v))
    ensures Mag(m, v) >= 0.0
    ensures Mag(m, v) == 0.0 <==> forall i :: 0 <= i < |v| ==> v[i] == 0.0
  {
    DotSelfZero(v);
    var s := Mag(m, v);
    if Dot(v, v) == 0.0 && s != 0.0 {
      calc {
        0.0;
        == Dot(v, v);
        == s * s;
        > { SquarePositive(s); }
        0.0;
      }
    }
  }
}
