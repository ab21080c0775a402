/** Degree and radian conversion of `angles.py`. Both conversions first
    reduce the angle modulo a full turn with Python's float `%`. */
module Angles {

  /** `np.pi`: the IEEE-754 double nearest to pi, as the exact rational it denotes. */
  const Pi: real := 3.141592653589793115997963468544185161590576171875

  /** A full turn in radians. */
  const Turn: real := 2.0 * Pi

  /** Python's `x % m` for a positive modulus: the remainder takes the sign
      of the modulus, `x - m * floor(x / m)`. */
  function Mod(x: real, m: real): (r: real)
    requires m > 0.0
    ensures 0.0 <= r < m
  {
    var f := (x / m).Floor as real;
    calc {
      m * f;
      <= { assert f <= x / m; MulLeftMono(m, f, x / m); }
      m * (x / m);
      == x;
    }
    calc {
      x;
      == m * (x / m);
      < { assert x / m < f + 1.0; MulLeftStrict(m, x / m, f + 1.0); }
      m * (f + 1.0);
      == m * f + m;
    }
    x - m * f
  }

  lemma MulLeftMono(m: real, a: real, b: real)
    requires m > 0.0 && a <= b
    ensures m * a <= m * b
  {
    assert m * b - m * a == m * (b - a);
  }

  lemma MulLeftStrict(m: real, a: real, b: real)
    requires m > 0.0 && a < b
    ensures m * a < m * b
  {
    assert m * b - m * a == m * (b - a);
  }

  /** The remainder is the unique value in [0, m) that differs from x by a
      whole number of moduli. */
  lemma ModUnique(x: real, m: real, k: int)
    requires m > 0.0
    requires 0.0 <= x - (k as real) * m < m
    ensures Mod(x, m) == x - (k as real) * m
  {
    var q := x / m;
    assert x == m * q;
    var kr := k as real;
    assert kr <= q by {
      if q < kr {
        MulLeftStrict(m, q, kr);
        assert false;
      }
    }
    assert q < kr + 1.0 by {
      if kr + 1.0 <= q {
        MulLeftMono(m, kr + 1.0, q);
        assert false;
      }
    }
    assert q.Floor == k;
  }

  /** Adding whole turns does not change the remainder. */
  lemma ModPeriodic(x: real, m: real, k: int)
    requires m > 0.0
    ensures Mod(x + (k as real) * m, m) == Mod(x, m)
  {
    var r := Mod(x, m);
    var f := (x / m).Floor;
    assert r == x - (f as real) * m;
    ModUnique(x + (k as real) * m, m, f + k);
  }

  /** A value already in [0, m) is its own remainder. */
  lemma ModOfInRange(x: real, m: real)
    requires 0.0 <= x < m
    ensures Mod(x, m) == x
  {
    ModUnique(x, m, 0);
  }

  /** `degrees_to_radians(d)`: lies in [0, 2 pi). */
  function DegreesToRadians(angleDeg: real): (r: real)
    ensures 0.0 <= r < Turn
  {
    Mod(angleDeg, 360.0) * Pi / 180.0
  }

  /** `radians_to_degrees(r)`: lies in [0, 360). */
  function RadiansToDegrees(angleRad: real): (d: real)
    ensures 0.0 <= d < 360.0
  {
    Mod(angleRad, Turn) * 180.0 / Pi
  }

  /** On an angle in [0, 360) the conversion is plain scaling by pi / 180. */
  lemma DegreesToRadiansOfNormalized(angleDeg: real)
    requires 0.0 <= angleDeg < 360.0
    ensures DegreesToRadians(angleDeg) == angleDeg * Pi / 180.0
  {
    ModOfInRange(angleDeg, 360.0);
  }

  /** On an angle in [0, 2 pi) the conversion is plain scaling by 180 / pi. */
  lemma RadiansToDegreesOfNormalized(angleRad: real)
    requires 0.0 <= angleRad < Turn
    ensures RadiansToDegrees(angleRad) == angleRad * 180.0 / Pi
  {
    ModOfInRange(angleRad, Turn);
  }

  /** Whole turns of 360 degrees do not change the result. */
  lemma DegreesToRadiansPeriodic(angleDeg: real, k: int)
    ensures DegreesToRadians(angleDeg + (k as real) * 360.0) == DegreesToRadians(angleDeg)
  {
    ModPeriodic(angleDeg, 360.0, k);
  }

  /** Whole turns of 2 pi radians do not change the result. */
  lemma RadiansToDegreesPeriodic(angleRad: real, k: int)
    ensures RadiansToDegrees(angleRad + (k as real) * Turn) == RadiansToDegrees(angleRad)
  {
    ModPeriodic(angleRad, Turn, k);
  }

  /** Degrees to radians and back gives the angle modulo 360. */
  lemma RadiansToDegreesOfDegreesToRadians(angleDeg: real)
    ensures RadiansToDegrees(DegreesToRadians(angleDeg)) == Mod(angleDeg, 360.0)
  {
    ModOfInRange(DegreesToRadians(angleDeg), Turn);
  }

  /** Radians to degrees and back gives the angle modulo 2 pi. */
  lemma DegreesToRadiansOfRadiansToDegrees(angleRad: real)
    ensures DegreesToRadians(RadiansToDegrees(angleRad)) == Mod(angleRad, Turn)
  {
    ModOfInRange(RadiansToDegrees(angleRad), 360.0);
  }
}
