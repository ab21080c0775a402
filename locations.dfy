/** The location family of `locations.py`: a point given in Earth-centred
    Earth-fixed coordinates (km), in spherical coordinates (km, radians) or
    in geographic coordinates (degrees, km above a spherical Earth). The
    constructors fold the angles into fixed ranges; conversions, displacement
    by a vector and the difference of two locations build new values. */
module Locations {
  import opened Outcomes
  import opened VectorAlg
  import opened Vector3
  import opened Elementary
  import opened Angles

  /** `Geo.Re_km`, the radius of the spherical Earth in km. */
  const EarthRadius: real := 6378.137

  /** The three concrete location classes, each with the attributes its
      constructor stores. */
  datatype Location =
    | ECEF(x: real, y: real, z: real)
    | SphCoords(r: real, theta: real, phi: real)
    | Geo(lat: real, lon: real, alt: real)

  /** The class of a location, as `__eq__` and `_from_vector` see it. */
  datatype Kind = ECEFKind | SphCoordsKind | GeoKind

  function KindOf(l: Location): Kind
  {
    match l
    case ECEF(_, _, _) => ECEFKind
    case SphCoords(_, _, _) => SphCoordsKind
    case Geo(_, _, _) => GeoKind
  }

  /** The ranges the constructors establish: theta in [0, pi], phi in
      [0, 2 pi), latitude in [-180, 180) and longitude in [-90, 90]. */
  predicate Valid(l: Location)
  {
    match l
    case ECEF(_, _, _) => true
    case SphCoords(_, theta, phi) => 0.0 <= theta <= Pi && 0.0 <= phi < Turn
    case Geo(lat, lon, _) => -180.0 <= lat < 180.0 && -90.0 <= lon <= 90.0
  }

  /** The polar angle folded into [0, pi]: reduced modulo 2 pi, and a value
      above pi reflected to 2 pi - theta (same cosine). */
  function FoldPolar(theta: real): (t: real)
    ensures 0.0 <= t <= Pi
    ensures t == Mod(theta, Turn) || t == Turn - Mod(theta, Turn)
  {
    var t := Mod(theta, Turn);
    if t > Pi then Turn - t else t
  }

  /** The latitude shifted by whole turns into [-180, 180). */
  function FoldLatitude(lat: real): (l: real)
    ensures -180.0 <= l < 180.0
    ensures l + 180.0 == Mod(lat + 180.0, 360.0)
  {
    Mod(lat + 180.0, 360.0) - 180.0
  }

  /** The longitude shifted into [-90, 270), and a value above 90 reflected
      to 180 - lon (same sine). */
  function FoldLongitude(lon: real): (l: real)
    ensures -90.0 <= l <= 90.0
    ensures l == Mod(lon + 90.0, 360.0) - 90.0 || l == 270.0 - Mod(lon + 90.0, 360.0)
  {
    var shifted := Mod(lon + 90.0, 360.0) - 90.0;
    if shifted > 90.0 then 180.0 - shifted else shifted
  }

  /** `SphCoords(r, theta, phi)`: theta folded into [0, pi], phi reduced
      modulo 2 pi, r kept. */
  function MakeSphCoords(r: real, theta: real, phi: real): (l: Location)
    ensures l.SphCoords? && Valid(l) && l.r == r
    ensures l.theta == Mod(theta, Turn) || l.theta == Turn - Mod(theta, Turn)
    ensures l.phi == Mod(phi, Turn)
  {
    SphCoords(r, FoldPolar(theta), Mod(phi, Turn))
  }

  /** `Geo(lat, lon, alt)`: latitude and longitude folded, altitude kept. */
  function MakeGeo(lat: real, lon: real, alt: real): (l: Location)
    ensures l.Geo? && Valid(l) && l.alt == alt
    ensures l.lat + 180.0 == Mod(lat + 180.0, 360.0)
    ensures l.lon == Mod(lon + 90.0, 360.0) - 90.0 || l.lon == 270.0 - Mod(lon + 90.0, 360.0)
  {
    Geo(FoldLatitude(lat), FoldLongitude(lon), alt)
  }

  /** Values already in range are stored unchanged. */
  lemma MakeSphCoordsOfValid(r: real, theta: real, phi: real)
    requires Valid(SphCoords(r, theta, phi))
    ensures MakeSphCoords(r, theta, phi) == SphCoords(r, theta, phi)
  {
    ModOfInRange(theta, Turn);
    ModOfInRange(phi, Turn);
  }

  lemma MakeGeoOfValid(lat: real, lon: real, alt: real)
    requires Valid(Geo(lat, lon, alt))
    ensures MakeGeo(lat, lon, alt) == Geo(lat, lon, alt)
  {
    ModOfInRange(lat + 180.0, 360.0);
    ModOfInRange(lon + 90.0, 360.0);
  }

  /** Folding is idempotent: a constructed location built again is unchanged. */
  lemma MakeSphCoordsIdempotent(r: real, theta: real, phi: real)
    ensures var l := MakeSphCoords(r, theta, phi);
      MakeSphCoords(l.r, l.theta, l.phi) == l
  {
    var l := MakeSphCoords(r, theta, phi);
    MakeSphCoordsOfValid(l.r, l.theta, l.phi);
  }

  lemma MakeGeoIdempotent(lat: real, lon: real, alt: real)
    ensures var l := MakeGeo(lat, lon, alt);
      MakeGeo(l.lat, l.lon, l.alt) == l
  {
    var l := MakeGeo(lat, lon, alt);
    MakeGeoOfValid(l.lat, l.lon, l.alt);
  }

  /** Whole turns added to either angle do not change the stored location. */
  lemma MakeSphCoordsPeriodic(r: real, theta: real, phi: real, k: int, j: int)
    ensures MakeSphCoords(r, theta + (k as real) * Turn, phi + (j as real) * Turn)
         == MakeSphCoords(r, theta, phi)
  {
    ModPeriodic(theta, Turn, k);
    ModPeriodic(phi, Turn, j);
  }

  lemma MakeGeoPeriodic(lat: real, lon: real, alt: real, k: int, j: int)
    ensures MakeGeo(lat + (k as real) * 360.0, lon + (j as real) * 360.0, alt)
         == MakeGeo(lat, lon, alt)
  {
    ModPeriodic(lat + 180.0, 360.0, k);
    ModPeriodic(lon + 90.0, 360.0, j);
    assert lat + (k as real) * 360.0 + 180.0 == lat + 180.0 + (k as real) * 360.0;
    assert lon + (j as real) * 360.0 + 90.0 == lon + 90.0 + (j as real) * 360.0;
  }

  /** The constructions checked against known values. */
  lemma ConstructorExamples()
    ensures MakeSphCoords(1.0, 2.0, 3.0) == SphCoords(1.0, 2.0, 3.0)
    ensures MakeGeo(1.0, 2.0, 3.0) == Geo(1.0, 2.0, 3.0)
    ensures MakeGeo(190.0, -100.0, 3.0) == Geo(-170.0, -80.0, 3.0)
  {
    MakeSphCoordsOfValid(1.0, 2.0, 3.0);
    MakeGeoOfValid(1.0, 2.0, 3.0);
    ModUnique(370.0, 360.0, 1);
    ModUnique(-10.0, 360.0, -1);
  }

  /** `SphCoords.geo()`: latitude 90 - theta and longitude phi in degrees,
      altitude r - Re, passed through the Geo constructor. */
  function SphToGeo(r: real, theta: real, phi: real): (g: Location)
    ensures g.Geo? && Valid(g) && g.alt == r - EarthRadius
  {
    MakeGeo(90.0 - RadiansToDegrees(theta), RadiansToDegrees(phi), r - EarthRadius)
  }

  /** `Geo.sph_coords()`: radius Re + alt, theta from the colatitude
      90 - lat and phi from the longitude, both in radians, passed through
      the SphCoords constructor. */
  function GeoToSph(lat: real, lon: real, alt: real): (s: Location)
    ensures s.SphCoords? && Valid(s) && s.r == EarthRadius + alt
  {
    MakeSphCoords(EarthRadius + alt, DegreesToRadians(90.0 - lat), DegreesToRadians(lon))
  }

  /** `ECEF.sph_coords()`: the origin maps to (0, 0, 0); a point on the z
      axis gets phi = 0; otherwise phi comes from acos(x / r_xy), reflected
      to 2 pi - phi below the x axis. */
  function EcefToSph(x: real, y: real, z: real, m: Numerics): (s: Location)
    ensures s.SphCoords? && Valid(s) && s.r == Mag(m, [x, y, z])
  {
    var r := Mag(m, [x, y, z]);
    if r == 0.0 then MakeSphCoords(0.0, 0.0, 0.0)
    else
      var rxy := m.sqrt(x * x + y * y);
      var angleZ := m.acos(rxy / r);
      var theta := if z > 0.0 then Pi / 2.0 - angleZ else Pi / 2.0 + angleZ;
      if rxy == 0.0 then MakeSphCoords(r, theta, 0.0)
      else
        var phi0 := m.acos(x / rxy);
        MakeSphCoords(r, theta, if y < 0.0 then Turn - phi0 else phi0)
  }

  /** `SphCoords.ecef()`: (r sin theta cos phi, r sin theta sin phi, r cos theta). */
  function SphToEcef(r: real, theta: real, phi: real, m: Numerics): (e: Location)
    ensures e.ECEF?
  {
    ECEF(r * m.sin(theta) * m.cos(phi), r * m.sin(theta) * m.sin(phi), r * m.cos(theta))
  }

  /** The ECEF point of a spherical location lies at distance r from the
      centre when sin and cos obey sin^2 + cos^2 = 1 at theta and at phi. */
  lemma SphToEcefRadius(r: real, theta: real, phi: real, m: Numerics)
    requires IsPythagoreanAt(m, theta) && IsPythagoreanAt(m, phi)
    ensures var e := SphToEcef(r, theta, phi, m);
      e.x * e.x + e.y * e.y + e.z * e.z == r * r
  {
    var st, ct, sp, cp := m.sin(theta), m.cos(theta), m.sin(phi), m.cos(phi);
    calc {
      (r * st * cp) * (r * st * cp) + (r * st * sp) * (r * st * sp) + (r * ct) * (r * ct);
      == (r * r) * (st * st) * (cp * cp + sp * sp) + (r * r) * (ct * ct);
      == (r * r) * (st * st) + (r * r) * (ct * ct);
      == (r * r) * (st * st + ct * ct);
      == r * r;
    }
  }

  /** `ecef()` of any location. */
  function ToEcef(l: Location, m: Numerics): (e: Location)
    ensures e.ECEF?
    ensures l.ECEF? ==> e == l
  {
    match l
    case ECEF(_, _, _) => l
    case SphCoords(r, theta, phi) => SphToEcef(r, theta, phi, m)
    case Geo(lat, lon, alt) =>
      var s := GeoToSph(lat, lon, alt);
      SphToEcef(s.r, s.theta, s.phi, m)
  }

  /** `sph_coords()` of any location. */
  function ToSph(l: Location, m: Numerics): (s: Location)
    ensures s.SphCoords?
    ensures l.SphCoords? ==> s == l
    ensures !l.SphCoords? ==> Valid(s)
  {
    match l
    case ECEF(x, y, z) => EcefToSph(x, y, z, m)
    case SphCoords(_, _, _) => l
    case Geo(lat, lon, alt) => GeoToSph(lat, lon, alt)
  }

  /** `geo()` of any location. */
  function ToGeo(l: Location, m: Numerics): (g: Location)
    ensures g.Geo?
    ensures l.Geo? ==> g == l
    ensures !l.Geo? ==> Valid(g)
  {
    match l
    case ECEF(x, y, z) =>
      var s := EcefToSph(x, y, z, m);
      SphToGeo(s.r, s.theta, s.phi)
    case SphCoords(r, theta, phi) => SphToGeo(r, theta, phi)
    case Geo(_, _, _) => l
  }

  /** `_vec()`: `ECEF._vec` is the vector of the coordinates; every other
      class inherits `self.ecef()._vec()`. */
  function Vec(l: Location, m: Numerics): (v: Vec3)
    ensures l.ECEF? ==> v == [l.x, l.y, l.z]
  {
    var e := ToEcef(l, m);
    [e.x, e.y, e.z]
  }

  /** The inherited `_vec` of any location is the vector of its ECEF form. */
  lemma VecOfEcef(l: Location, m: Numerics)
    ensures Vec(l, m) == Vec(ToEcef(l, m), m)
  {
  }

  /** `cls._from_vector(v)` for each of the three classes: the vector is
      read as ECEF coordinates and converted; a non-Vector3D raises TypeError. */
  function FromVector(kind: Kind, v: Arg<Vec3>, m: Numerics): (r: Result<Location>)
    ensures r.Ok? <==> v.Instance?
    ensures r.Err? ==> r.error == TypeError
    ensures r.Ok? ==> KindOf(r.value) == kind
    ensures r.Ok? ==> Valid(r.value)
    ensures r.Ok? && kind == ECEFKind ==> Vec(r.value, m) == v.value
    ensures r.Ok? && kind == SphCoordsKind ==> r.value.r == Mag(m, v.value)
    ensures r.Ok? && kind == GeoKind ==> r.value.alt == Mag(m, v.value) - EarthRadius
  {
    match v
    case NotInstance => Err(TypeError)
    case Instance(w) =>
      var e := ECEF(w[0], w[1], w[2]);
      assert [e.x, e.y, e.z] == w;
      match kind
      case ECEFKind => Ok(e)
      case SphCoordsKind => Ok(EcefToSph(e.x, e.y, e.z, m))
      case GeoKind => Ok(ToGeo(e, m))
  }

  /** `location + v` and `v + location`: the location's vector displaced by
      `v`, converted back to the location's own class; anything but a
      Vector3D raises TypeError. */
  function Displace(l: Location, v: Arg<Vec3>, m: Numerics): (r: Result<Location>)
    ensures r.Ok? <==> v.Instance?
    ensures r.Err? ==> r.error == TypeError
    ensures r.Ok? ==> KindOf(r.value) == KindOf(l) && Valid(r.value)
    ensures r.Ok? && l.ECEF? ==> Vec(r.value, m) == Add(Vec(l, m), v.value)
  {
    match v
    case NotInstance => Err(TypeError)
    case Instance(w) => FromVector(KindOf(l), Instance(Add(Vec(l, m), w)), m)
  }

  /** `a - b`: the vector from b to a. */
  function Difference(a: Location, b: Location, m: Numerics): (d: Vec3)
    ensures Add(Vec(b, m), d) == Vec(a, m)
  {
    var d := Sub(Vec(a, m), Vec(b, m));
    assert Add(Vec(b, m), d) == Vec(a, m);
    d
  }

  /** Displacing an ECEF point adds the vector to its coordinates. */
  lemma DisplaceEcef(x: real, y: real, z: real, v: Vec3, m: Numerics)
    ensures Displace(ECEF(x, y, z), Instance(v), m) == Ok(ECEF(x + v[0], y + v[1], z + v[2]))
  {
  }

  /** For an ECEF point, (a + v) - a == v. */
  lemma DisplaceThenDifference(a: Location, v: Vec3, m: Numerics)
    requires a.ECEF?
    ensures Displace(a, Instance(v), m).Ok?
    ensures Difference(Displace(a, Instance(v), m).value, a, m) == v
  {
    var b := Displace(a, Instance(v), m).value;
    assert Vec(b, m) == Add(Vec(a, m), v);
    AddSubCancel(Vec(a, m), v);
  }

  /** Displacing by something that is not a Vector3D, or building any class
      from one, raises TypeError. */
  lemma NonVectorRaises(l: Location, kind: Kind, m: Numerics)
    ensures Displace(l, NotInstance, m) == Err(TypeError)
    ensures FromVector(kind, NotInstance, m) == Err(TypeError)
  {
  }

  /** The origin has spherical coordinates (0, 0, 0). */
  lemma OriginToSph(m: Numerics)
    requires m.sqrt(0.0) == 0.0
    ensures EcefToSph(0.0, 0.0, 0.0, m) == SphCoords(0.0, 0.0, 0.0)
  {
    assert Dot([0.0, 0.0, 0.0], [0.0, 0.0, 0.0]) == 0.0 by {
      DotSelfOfZero([0.0, 0.0, 0.0]);
    }
    MakeSphCoordsOfValid(0.0, 0.0, 0.0);
  }

  /** A point on the z axis away from the origin gets phi = 0, and theta is
      0 above the x-y plane and pi below it, when sqrt(0) = 0, acos(0) = pi/2
      and sqrt is the square root at the point's squared length. */
  lemma ZAxisToSph(z: real, m: Numerics)
    requires z != 0.0
    requires m.sqrt(0.0) == 0.0 && m.acos(0.0) == Pi / 2.0
    requires IsSqrtAt(m, Dot([0.0, 0.0, z], [0.0, 0.0, z]))
    ensures EcefToSph(0.0, 0.0, z, m) == SphCoords(Mag(m, [0.0, 0.0, z]), if z > 0.0 then 0.0 else Pi, 0.0)
  {
    var v := [0.0, 0.0, z];
    DotSelfPositive(v, 2);
    MagZero(m, v);
    var r := Mag(m, v);
    assert r != 0.0;
    assert 0.0 / r == 0.0;
    MakeSphCoordsOfValid(r, if z > 0.0 then 0.0 else Pi, 0.0);
  }

  /** Spherical to geographic and back keeps r and theta. phi is kept on the
      half-space phi in [0, pi/2] or [3 pi/2, 2 pi); on the other half the
      longitude fold returns (pi - phi) mod 2 pi. */
  lemma SphGeoSphRoundTrip(r: real, theta: real, phi: real)
    requires Valid(SphCoords(r, theta, phi))
    ensures var g := SphToGeo(r, theta, phi);
      var s := GeoToSph(g.lat, g.lon, g.alt);
      && s.r == r && s.theta == theta
      && s.phi == (if phi <= Pi / 2.0 || 3.0 * Pi / 2.0 <= phi then phi else Mod(Pi - phi, Turn))
  {
    PolarThroughLatitude(theta);
    AzimuthThroughLongitude(phi);
  }

  /** theta in [0, pi] survives the trip through latitude 90 - theta in degrees. */
  lemma PolarThroughLatitude(theta: real)
    requires 0.0 <= theta <= Pi
    ensures FoldPolar(DegreesToRadians(90.0 - FoldLatitude(90.0 - RadiansToDegrees(theta)))) == theta
  {
    var thetaDeg := RadiansToDegrees(theta);
    RadiansToDegreesOfNormalized(theta);
    ModOfInRange(90.0 - thetaDeg + 180.0, 360.0);
    assert FoldLatitude(90.0 - thetaDeg) == 90.0 - thetaDeg;
    DegreesToRadiansOfNormalized(thetaDeg);
    ModOfInRange(theta, Turn);
  }

  /** phi in [0, 2 pi) through the longitude fold and back. */
  lemma AzimuthThroughLongitude(phi: real)
    requires 0.0 <= phi < Turn
    ensures Mod(DegreesToRadians(FoldLongitude(RadiansToDegrees(phi))), Turn)
         == if phi <= Pi / 2.0 || 3.0 * Pi / 2.0 <= phi then phi else Mod(Pi - phi, Turn)
  {
    var phiDeg := RadiansToDegrees(phi);
    RadiansToDegreesOfNormalized(phi);
    var lon := FoldLongitude(phiDeg);
    ModOfInRange(DegreesToRadians(lon), Turn);
    if phiDeg <= 90.0 {
      ModOfInRange(phiDeg + 90.0, 360.0);
      DegreesToRadiansOfNormalized(phiDeg);
    } else if phiDeg < 270.0 {
      ModOfInRange(phiDeg + 90.0, 360.0);
      assert lon == 180.0 - phiDeg;
      LongitudeReflected(phi);
    } else {
      ModUnique(phiDeg + 90.0, 360.0, 1);
      assert lon == phiDeg - 360.0;
      ModUnique(phiDeg - 360.0, 360.0, -1);
    }
  }

  /** A reflected longitude 180 - phi in degrees comes back as (pi - phi) mod 2 pi. */
  lemma LongitudeReflected(phi: real)
    requires Pi / 2.0 < phi < 3.0 * Pi / 2.0
    ensures DegreesToRadians(180.0 - phi * 180.0 / Pi) == Mod(Pi - phi, Turn)
  {
    var phiDeg := phi * 180.0 / Pi;
    if phiDeg <= 180.0 {
      DegreesToRadiansOfNormalized(180.0 - phiDeg);
      ModOfInRange(Pi - phi, Turn);
    } else {
      ModUnique(180.0 - phiDeg, 360.0, -1);
      ModUnique(Pi - phi, Turn, -1);
    }
  }

  /** Geographic to spherical and back is exact for latitudes in [-90, 90]. */
  lemma GeoSphGeoRoundTrip(lat: real, lon: real, alt: real)
    requires Valid(Geo(lat, lon, alt)) && -90.0 <= lat <= 90.0
    ensures var s := GeoToSph(lat, lon, alt);
      SphToGeo(s.r, s.theta, s.phi) == Geo(lat, lon, alt)
  {
    LatitudeThroughPolar(lat);
    LongitudeThroughAzimuth(lon);
  }

  /** A latitude in [-90, 90] survives the trip through the polar angle. */
  lemma LatitudeThroughPolar(lat: real)
    requires -90.0 <= lat <= 90.0
    ensures FoldLatitude(90.0 - RadiansToDegrees(FoldPolar(DegreesToRadians(90.0 - lat)))) == lat
  {
    var theta := DegreesToRadians(90.0 - lat);
    DegreesToRadiansOfNormalized(90.0 - lat);
    ModOfInRange(theta, Turn);
    assert FoldPolar(theta) == theta;
    RadiansToDegreesOfNormalized(theta);
    ModOfInRange(lat + 180.0, 360.0);
  }

  /** A longitude in [-90, 90] survives the trip through the azimuth. */
  lemma LongitudeThroughAzimuth(lon: real)
    requires -90.0 <= lon <= 90.0
    ensures FoldLongitude(RadiansToDegrees(Mod(DegreesToRadians(lon), Turn))) == lon
  {
    var phi := DegreesToRadians(lon);
    ModOfInRange(phi, Turn);
    RadiansToDegreesOfNormalized(phi);
    if lon >= 0.0 {
      DegreesToRadiansOfNormalized(lon);
      ModOfInRange(lon + 90.0, 360.0);
    } else {
      ModUnique(lon, 360.0, -1);
      ModUnique(lon + 360.0 + 90.0, 360.0, 1);
    }
  }

  /** As written, the longitude fold reflects every longitude in (90, 270)
      degrees to 180 - lon, so a point with x < 0 is mirrored across the
      y-z plane: ECEF (-1, 0, 0) becomes Geo(0, 0, 1 - Re), whose ECEF form is
      (1, 0, 0), and moving that Geo by (-2, 0, 0) leaves it where it was.
      Only the values of sqrt, acos, sin and cos at these points are used. */
  lemma GeoLosesWestHemisphere(m: Numerics)
    requires m.sqrt(1.0) == 1.0 && m.acos(1.0) == 0.0 && m.acos(-1.0) == Pi
    requires m.sin(0.0) == 0.0 && m.cos(0.0) == 1.0
    requires m.sin(Pi / 2.0) == 1.0 && m.cos(Pi / 2.0) == 0.0
    ensures ToGeo(ECEF(-1.0, 0.0, 0.0), m) == Geo(0.0, 0.0, 1.0 - EarthRadius)
    ensures ToEcef(Geo(0.0, 0.0, 1.0 - EarthRadius), m) == ECEF(1.0, 0.0, 0.0)
    ensures Displace(Geo(0.0, 0.0, 1.0 - EarthRadius), Instance([-2.0, 0.0, 0.0]), m)
         == Ok(Geo(0.0, 0.0, 1.0 - EarthRadius))
  {
    assert Dot([-1.0, 0.0, 0.0], [-1.0, 0.0, 0.0]) == 1.0;
    var s := EcefToSph(-1.0, 0.0, 0.0, m);
    ModOfInRange(Pi / 2.0, Turn);
    ModOfInRange(Pi, Turn);
    assert s == SphCoords(1.0, Pi / 2.0, Pi);
    ModOfInRange(90.0, 360.0);
    ModOfInRange(180.0, 360.0);
    ModOfInRange(270.0, 360.0);
    assert SphToGeo(1.0, Pi / 2.0, Pi) == Geo(0.0, 0.0, 1.0 - EarthRadius);
    ModOfInRange(0.0, 360.0);
    ModOfInRange(0.0, Turn);
    assert GeoToSph(0.0, 0.0, 1.0 - EarthRadius) == SphCoords(1.0, Pi / 2.0, 0.0);
  }

  /** The Geo constructor as evidently intended: latitude and longitude are
      both shifted by whole turns into [-180, 180), with no reflection. */
  function MakeGeoIntended(lat: real, lon: real, alt: real): (l: Location)
    ensures l.Geo? && l.alt == alt
    ensures -180.0 <= l.lat < 180.0 && l.lat + 180.0 == Mod(lat + 180.0, 360.0)
    ensures -180.0 <= l.lon < 180.0 && l.lon + 180.0 == Mod(lon + 180.0, 360.0)
  {
    Geo(FoldLatitude(lat), FoldLatitude(lon), alt)
  }

  /** `SphCoords.geo()` through the intended Geo constructor. */
  function SphToGeoIntended(r: real, theta: real, phi: real): (g: Location)
    ensures g.Geo? && g.alt == r - EarthRadius && -180.0 <= g.lon < 180.0
  {
    MakeGeoIntended(90.0 - RadiansToDegrees(theta), RadiansToDegrees(phi), r - EarthRadius)
  }

  /** phi in [0, 2 pi) survives the trip through the longitude when it is
      only wrapped by whole turns. */
  lemma AzimuthThroughLongitudeIntended(phi: real)
    requires 0.0 <= phi < Turn
    ensures Mod(DegreesToRadians(FoldLatitude(RadiansToDegrees(phi))), Turn) == phi
  {
    var phiDeg := RadiansToDegrees(phi);
    RadiansToDegreesOfNormalized(phi);
    ModOfInRange(DegreesToRadians(FoldLatitude(phiDeg)), Turn);
    if phiDeg < 180.0 {
      ModOfInRange(phiDeg + 180.0, 360.0);
      DegreesToRadiansOfNormalized(phiDeg);
    } else {
      ModUnique(phiDeg + 180.0, 360.0, 1);
      ModUnique(phiDeg - 360.0, 360.0, -1);
    }
  }

  /** A longitude in [-180, 180) survives the trip through the azimuth when
      it is only wrapped by whole turns. */
  lemma LongitudeThroughAzimuthIntended(lon: real)
    requires -180.0 <= lon < 180.0
    ensures FoldLatitude(RadiansToDegrees(Mod(DegreesToRadians(lon), Turn))) == lon
  {
    var phi := DegreesToRadians(lon);
    ModOfInRange(phi, Turn);
    RadiansToDegreesOfNormalized(phi);
    if lon >= 0.0 {
      DegreesToRadiansOfNormalized(lon);
      ModOfInRange(lon + 180.0, 360.0);
    } else {
      ModUnique(lon, 360.0, -1);
      ModUnique(lon + 360.0 + 180.0, 360.0, 1);
    }
  }

  /** With the intended constructor, SphCoords to Geo and back is exact. */
  lemma SphGeoSphRoundTripIntended(r: real, theta: real, phi: real)
    requires Valid(SphCoords(r, theta, phi))
    ensures var g := SphToGeoIntended(r, theta, phi);
      GeoToSph(g.lat, g.lon, g.alt) == SphCoords(r, theta, phi)
  {
    PolarThroughLatitude(theta);
    AzimuthThroughLongitudeIntended(phi);
  }

  /** With the intended constructor, Geo to SphCoords and back is exact for
      latitudes in [-90, 90] and every longitude in [-180, 180). */
  lemma GeoSphGeoRoundTripIntended(lat: real, lon: real, alt: real)
    requires -90.0 <= lat <= 90.0 && -180.0 <= lon < 180.0
    ensures var s := GeoToSph(lat, lon, alt);
      SphToGeoIntended(s.r, s.theta, s.phi) == Geo(lat, lon, alt)
  {
    LatitudeThroughPolar(lat);
    LongitudeThroughAzimuthIntended(lon);
  }

  /** With the intended constructor, the point (-1, 0, 0) gets longitude -180
      and its ECEF form is (-1, 0, 0) again. */
  lemma WestPointKeptIntended(m: Numerics)
    requires m.sqrt(1.0) == 1.0 && m.acos(1.0) == 0.0 && m.acos(-1.0) == Pi
    requires m.sin(Pi) == 0.0 && m.cos(Pi) == -1.0
    requires m.sin(Pi / 2.0) == 1.0 && m.cos(Pi / 2.0) == 0.0
    ensures var s := EcefToSph(-1.0, 0.0, 0.0, m);
      var g := SphToGeoIntended(s.r, s.theta, s.phi);
      g == Geo(0.0, -180.0, 1.0 - EarthRadius) && ToEcef(g, m) == ECEF(-1.0, 0.0, 0.0)
  {
    assert Dot([-1.0, 0.0, 0.0], [-1.0, 0.0, 0.0]) == 1.0;
    ModOfInRange(Pi / 2.0, Turn);
    ModOfInRange(Pi, Turn);
    assert EcefToSph(-1.0, 0.0, 0.0, m) == SphCoords(1.0, Pi / 2.0, Pi);
    ModOfInRange(90.0, 360.0);
    ModOfInRange(180.0, 360.0);
    ModUnique(360.0, 360.0, 1);
    assert SphToGeoIntended(1.0, Pi / 2.0, Pi) == Geo(0.0, -180.0, 1.0 - EarthRadius);
    ModUnique(-180.0, 360.0, -1);
    assert GeoToSph(0.0, -180.0, 1.0 - EarthRadius) == SphCoords(1.0, Pi / 2.0, Pi);
  }

  /** The attributes of a location in the order its constructor sets them. */
  function Fields(l: Location): (f: seq<real>)
    ensures |f| == 3
  {
    match l
    case ECEF(x, y, z) => [x, y, z]
    case SphCoords(r, theta, phi) => [r, theta, phi]
    case Geo(lat, lon, alt) => [lat, lon, alt]
  }

  /** Two locations of the same class are equal exactly when their
      attributes are. */
  lemma FieldsDetermine(a: Location, b: Location)
    requires KindOf(a) == KindOf(b)
    ensures a == b <==> Fields(a) == Fields(b)
  {
    if Fields(a) == Fields(b) {
      assert Fields(a)[0] == Fields(b)[0];
      assert Fields(a)[1] == Fields(b)[1];
      assert Fields(a)[2] == Fields(b)[2];
    }
  }

  /** `a == other`: false for a different class or a non-location, otherwise
      a scan over the attributes that stops at the first mismatch. */
  method Equals(a: Location, other: Arg<Location>) returns (eq: bool)
    ensures eq <==> other.Instance? && other.value == a
  {
    if other.NotInstance? || KindOf(other.value) != KindOf(a) {
      return false;
    }
    var mine, theirs := Fields(a), Fields(other.value);
    FieldsDetermine(a, other.value);
    var i := 0;
    while i < |mine|
      invariant 0 <= i <= |mine|
      invariant mine[..i] == theirs[..i]
    {
      if theirs[i] != mine[i] {
        return false;
      }
      i := i + 1;
    }
    assert mine == mine[..i] && theirs == theirs[..i];
    return true;
  }
}
