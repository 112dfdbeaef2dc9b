/** Cubic segments between waypoints, and the re-parametrised pieces cut out of them. */
module Splines {
  import opened OrderMaps
  import opened Waypoints

  // ---------------------------------------------------------------- scalar cubics

  /** Coefficients in ascending order: d + c*t + b*t^2 + a*t^3. */
  datatype Cubic = Cubic(d: real, c: real, b: real, a: real) {
    function At(t: real): real { a * t * t * t + b * t * t + c * t + d }
    function Slope(t: real): real { 3.0 * a * t * t + 2.0 * b * t + c }
  }

  /** The cubic with given end positions and end slopes. */
  function Hermite(x0: real, x1: real, v0: real, v1: real): Cubic {
    Cubic(x0, v0, -v1 - 2.0 * v0 + 3.0 * x1 - 3.0 * x0, v1 + v0 - 2.0 * x1 + 2.0 * x0)
  }

  /** Interpolation: the cubic meets its end conditions. */
  lemma HermiteEnds(x0: real, x1: real, v0: real, v1: real)
    ensures var p := Hermite(x0, x1, v0, v1);
            p.At(0.0) == x0 && p.At(1.0) == x1 && p.Slope(0.0) == v0 && p.Slope(1.0) == v1
  {
  }

  /** What a cubic looks like when the parameter runs over [t0, t0 + h] as s runs over [0, 1]. */
  function Reparametrised(p: Cubic, t0: real, h: real): Cubic {
    Cubic(p.At(t0), h * p.Slope(t0), h * h * (p.b + 3.0 * p.a * t0), h * h * h * p.a)
  }

  /** Rebuilding a cubic from the ends of a window gives the re-parametrised cubic. */
  lemma HermiteOfWindow(p: Cubic, t0: real, h: real)
    ensures Hermite(p.At(t0), p.At(t0 + h), h * p.Slope(t0), h * p.Slope(t0 + h)) == Reparametrised(p, t0, h)
  {
  }

  lemma ReparametrisedAt(p: Cubic, t0: real, h: real, s: real)
    ensures Reparametrised(p, t0, h).At(s) == p.At(t0 + s * h)
    ensures Reparametrised(p, t0, h).Slope(s) == h * p.Slope(t0 + s * h)
  {
    Powers(p.d, p.c, p.b, p.a, t0, h, s);
    SlopePowers(p.c, p.b, p.a, t0, h, s);
  }

  lemma Powers(d: real, c: real, b: real, a: real, u: real, h: real, s: real)
    ensures Reparametrised(Cubic(d, c, b, a), u, h).At(s) == Cubic(d, c, b, a).At(u + s * h)
  {
  }

  lemma SlopePowers(c: real, b: real, a: real, u: real, h: real, s: real)
    ensures 3.0 * (h * h * h * a) * s * s + 2.0 * (h * h * (b + 3.0 * a * u)) * s
            + h * (3.0 * a * u * u + 2.0 * b * u + c)
         == h * (3.0 * a * (u + s * h) * (u + s * h) + 2.0 * b * (u + s * h) + c)
  {
  }

  /** The slope is the rate of change: Simpson's rule is exact for cubics. */
  lemma Simpson(p: Cubic, u: real, v: real)
    ensures p.At(v) - p.At(u) == (v - u) / 6.0 * (p.Slope(u) + 4.0 * p.Slope((u + v) / 2.0) + p.Slope(v))
  {
  }

  // ---------------------------------------------------------------- basis matrix of the collision library

  datatype Knots = Knots(k0: real, k1: real, k2: real, k3: real)

  /** The uniform cubic B-spline matrix applied to four knots. */
  function Basis(k: Knots): Cubic {
    Cubic(k.k0 / 6.0 + 2.0 * k.k1 / 3.0 + k.k2 / 6.0,
          -k.k0 / 2.0 + k.k2 / 2.0,
          k.k0 / 2.0 - k.k1 + k.k2 / 2.0,
          -k.k0 / 6.0 + k.k1 / 2.0 - k.k2 / 2.0 + k.k3 / 6.0)
  }

  /** The inverse matrix applied to coefficients. */
  function ToKnots(p: Cubic): Knots {
    Knots(p.d - p.c + 2.0 * p.b / 3.0,
          p.d - p.b / 3.0,
          p.d + p.c + 2.0 * p.b / 3.0,
          p.d + 2.0 * p.c + 11.0 * p.b / 3.0 + 6.0 * p.a)
  }

  lemma KnotsRoundTrip(p: Cubic, k: Knots)
    ensures Basis(ToKnots(p)) == p
    ensures ToKnots(Basis(k)) == k
  {
  }

  /** Equal knots stand still at that value, and the pieces of consecutive knots join up to the curvature. */
  lemma KnotsJoin(k0: real, k1: real, k2: real, k3: real, k4: real, s: real)
    ensures Basis(Knots(k0, k0, k0, k0)).At(s) == k0
    ensures var p, q := Basis(Knots(k0, k1, k2, k3)), Basis(Knots(k1, k2, k3, k4));
      && p.At(1.0) == q.At(0.0) && p.Slope(1.0) == q.Slope(0.0)
      && 2.0 * p.b + 6.0 * p.a == 2.0 * q.b
  {
  }

  // ---------------------------------------------------------------- splines in time

  function Seconds(nanoseconds: real): real { nanoseconds / 1000000000.0 }

  function Product(f: real, x: real): real { f * x }

  function Scale(f: real, v: Vec3): Vec3 { Vec3(Product(f, v.x), Product(f, v.y), Product(f, v.yaw)) }

  datatype Spline = Spline(x: Cubic, y: Cubic, yaw: Cubic, deltaT: real, start: Time, finish: Time) {
    ghost predicate Valid() {
      start < finish && deltaT == Seconds((finish - start) as real)
    }

    /** Time in nanoseconds to the spline's own parameter. */
    function Scaled(t: real): real
      requires deltaT != 0.0
    {
      Seconds(t - start as real) / deltaT
    }

    function Position(t: real): Vec3
      requires deltaT != 0.0
    {
      Vec3(x.At(Scaled(t)), y.At(Scaled(t)), yaw.At(Scaled(t)))
    }

    function Slopes(t: real): Vec3
      requires deltaT != 0.0
    {
      Vec3(x.Slope(Scaled(t)), y.Slope(Scaled(t)), yaw.Slope(Scaled(t)))
    }

    function Velocity(t: real): Vec3
      requires deltaT != 0.0
    {
      Scale(1.0 / deltaT, Slopes(t))
    }

    /** The waypoint the spline passes through at a time. */
    function Sample(t: Time): Waypoint
      requires deltaT != 0.0
    {
      Waypoint(t, Position(t as real), Velocity(t as real))
    }
  }

  /** One axis of a segment of `dt` seconds between positions and velocities. */
  function AxisSegment(x0: real, x1: real, v0: real, v1: real, dt: real): Cubic {
    Hermite(x0, x1, dt * v0, dt * v1)
  }

  /** The segment between two consecutive waypoints. */
  function MakeSpline(first: Waypoint, last: Waypoint): (s: Spline)
    requires first.time < last.time
    ensures s.Valid() && s.deltaT > 0.0
  {
    var dt := Seconds((last.time - first.time) as real);
    var p0, p1, v0, v1 := first.position, last.position, first.velocity, last.velocity;
    Spline(
      AxisSegment(p0.x, p1.x, v0.x, v1.x, dt),
      AxisSegment(p0.y, p1.y, v0.y, v1.y, dt),
      AxisSegment(p0.yaw, p1.yaw, v0.yaw, v1.yaw, dt),
      dt, first.time, last.time)
  }

  lemma ScaleInverse(f: real, v: Vec3)
    requires f != 0.0
    ensures Scale(1.0 / f, Scale(f, v)) == v
  {
    assert (1.0 / f) * f == 1.0;
    ScaleBack(1.0 / f, f, v.x);
    ScaleBack(1.0 / f, f, v.y);
    ScaleBack(1.0 / f, f, v.yaw);
  }

  lemma ScaleBack(g: real, f: real, x: real)
    requires g * f == 1.0
    ensures g * (f * x) == x
  {
    assert g * (f * x) == (g * f) * x;
  }

  /** A segment passes through both of its waypoints with their velocities. */
  lemma SegmentEnds(first: Waypoint, last: Waypoint)
    requires first.time < last.time
    ensures MakeSpline(first, last).Sample(first.time) == first
    ensures MakeSpline(first, last).Sample(last.time) == last
  {
    var s := MakeSpline(first, last);
    assert s.Scaled(first.time as real) == 0.0;
    assert s.Scaled(last.time as real) == 1.0;
    ScaleInverse(s.deltaT, first.velocity);
    ScaleInverse(s.deltaT, last.velocity);
    var p0, p1, v0, v1, dt := first.position, last.position, first.velocity, last.velocity, s.deltaT;
    HermiteEnds(p0.x, p1.x, dt * v0.x, dt * v1.x);
    HermiteEnds(p0.y, p1.y, dt * v0.y, dt * v1.y);
    HermiteEnds(p0.yaw, p1.yaw, dt * v0.yaw, dt * v1.yaw);
  }

  /** The way in `h` seconds of a velocity with these values at the start, half-way and at the end. */
  function Way(h: real, v0: real, v1: real, v2: real): real { h / 6.0 * (v0 + 4.0 * v1 + v2) }

  /**
   Velocity is the rate of change of position per second, that is per 10^9 nanoseconds: over any
   stretch of `h` seconds the way is `h` times the exact mean of the velocity.
   */
  lemma VelocityIsRate(sp: Spline, t: real, h: real)
    requires sp.deltaT > 0.0
    ensures var p, q := sp.Position(t), sp.Position(t + 1000000000.0 * h);
      var v0, v1, v2 := sp.Velocity(t), sp.Velocity(t + 500000000.0 * h), sp.Velocity(t + 1000000000.0 * h);
      && q.x - p.x == Way(h, v0.x, v1.x, v2.x)
      && q.y - p.y == Way(h, v0.y, v1.y, v2.y)
      && q.yaw - p.yaw == Way(h, v0.yaw, v1.yaw, v2.yaw)
  {
    var d, u := sp.deltaT, sp.Scaled(t);
    var m, v := sp.Scaled(t + 500000000.0 * h), sp.Scaled(t + 1000000000.0 * h);
    var v0, v1, v2 := sp.Velocity(t), sp.Velocity(t + 500000000.0 * h), sp.Velocity(t + 1000000000.0 * h);
    ScaledLater(sp, t, h, h / d);
    RateOnAxis(sp.x, u, m, v, h, d, v0.x, v1.x, v2.x);
    RateOnAxis(sp.y, u, m, v, h, d, v0.y, v1.y, v2.y);
    RateOnAxis(sp.yaw, u, m, v, h, d, v0.yaw, v1.yaw, v2.yaw);
  }

  lemma ScaledLater(sp: Spline, t: real, h: real, g: real)
    requires sp.deltaT > 0.0 && g == h / sp.deltaT
    ensures sp.Scaled(t + 1000000000.0 * h) == sp.Scaled(t) + g
    ensures sp.Scaled(t + 500000000.0 * h) == sp.Scaled(t) + g / 2.0
  {
    var x, d := t - sp.start as real, sp.deltaT;
    assert Seconds(x + 1000000000.0 * h) == Seconds(x) + h && Seconds(x + 500000000.0 * h) == Seconds(x) + h / 2.0;
    assert t + 1000000000.0 * h - sp.start as real == x + 1000000000.0 * h;
    assert t + 500000000.0 * h - sp.start as real == x + 500000000.0 * h;
    DivSum(Seconds(x), 1.0, h, d);
    DivSum(Seconds(x), 0.5, h, d);
  }

  lemma RateOnAxis(p: Cubic, u: real, m: real, v: real, h: real, d: real, v0: real, v1: real, v2: real)
    requires d > 0.0 && v == u + h / d && m == u + h / d / 2.0
    requires v0 == Product(1.0 / d, p.Slope(u)) && v1 == Product(1.0 / d, p.Slope(m))
    requires v2 == Product(1.0 / d, p.Slope(v))
    ensures p.At(v) - p.At(u) == Way(h, v0, v1, v2)
  {
    SimpsonWay(p, u, m, v, h / d);
    RateFactor(h, d, h / d, p.Slope(u), p.Slope(m), p.Slope(v), v0, v1, v2);
  }

  lemma SimpsonWay(p: Cubic, u: real, m: real, v: real, g: real)
    requires v == u + g && m == u + g / 2.0
    ensures p.At(v) - p.At(u) == Way(g, p.Slope(u), p.Slope(m), p.Slope(v))
  {
    Simpson(p, u, v);
    assert (u + v) / 2.0 == m && v - u == g;
  }

  lemma RateFactor(h: real, d: real, g: real, s0: real, s1: real, s2: real, v0: real, v1: real, v2: real)
    requires d > 0.0 && g == h / d
    requires v0 == Product(1.0 / d, s0) && v1 == Product(1.0 / d, s1) && v2 == Product(1.0 / d, s2)
    ensures Way(g, s0, s1, s2) == Way(h, v0, v1, v2)
  {
    var f := 1.0 / d;
    assert g == h * f;
    assert v0 + 4.0 * v1 + v2 == f * (s0 + 4.0 * s1 + s2);
  }

  // ---------------------------------------------------------------- windows of a spline

  /** The cubic rebuilt from position and slope at `u` and at `v`, with slopes rescaled by `h`. */
  function WindowCubic(p: Cubic, h: real, u: real, v: real): Cubic {
    Hermite(p.At(u), p.At(v), h * p.Slope(u), h * p.Slope(v))
  }

  /** The window's cubic follows the original over the window, in position and in slope. */
  lemma WindowFollows(p: Cubic, h: real, u: real, v: real, s: real, t: real)
    requires v == u + h && t == u + s * h
    ensures WindowCubic(p, h, u, v).At(s) == p.At(t)
    ensures WindowCubic(p, h, u, v).Slope(s) == h * p.Slope(t)
  {
    assert p.At(v) == p.At(u + h) && p.Slope(v) == p.Slope(u + h);
    assert p.At(t) == p.At(u + s * h) && p.Slope(t) == p.Slope(u + s * h);
    HermiteOfWindow(p, u, h);
    ReparametrisedAt(p, u, h, s);
  }

  /** Scaled time is affine in time: a window of `w` nanoseconds is `h` wide in the parameter. */
  lemma ScaledAffine(sp: Spline, t0: real, w: real, s: real, h: real)
    requires sp.deltaT > 0.0 && h == Seconds(w) / sp.deltaT
    ensures sp.Scaled(t0 + s * w) == sp.Scaled(t0) + s * h
  {
    var d, o := sp.deltaT, sp.start as real;
    assert t0 + s * w - o == (t0 - o) + s * w;
    assert Seconds((t0 - o) + s * w) == Seconds(t0 - o) + s * Seconds(w);
    DivSum(Seconds(t0 - o), s, Seconds(w), d);
  }

  lemma DivSum(x: real, s: real, w: real, d: real)
    requires d > 0.0
    ensures (x + s * w) / d == x / d + s * (w / d)
  {
    assert (s * w) / d == s * (w / d);
  }

  lemma WindowTimes(sp: Spline, t0: Time, t1: Time, s: real, h: real)
    requires sp.deltaT > 0.0 && h == Seconds((t1 - t0) as real) / sp.deltaT
    ensures sp.Scaled(t1 as real) == sp.Scaled(t0 as real) + h
    ensures sp.Scaled(t0 as real + s * (t1 - t0) as real) == sp.Scaled(t0 as real) + s * h
  {
    var w := (t1 - t0) as real;
    ScaledAffine(sp, t0 as real, w, s, h);
    ScaledAffine(sp, t0 as real, w, 1.0, h);
    assert t0 as real + 1.0 * w == t1 as real;
    assert 1.0 * h == h;
  }

  // ---------------------------------------------------------------- knots of a window

  datatype SplineMotion = SplineMotion(x: Knots, y: Knots, yaw: Knots) {
    /** The pose the collision library computes at parameter s. */
    function Pose(s: real): Vec3 { Vec3(Basis(x).At(s), Basis(y).At(s), Basis(yaw).At(s)) }
  }

  function ComputeKnots(sp: Spline, t0: Time, t1: Time): SplineMotion
    requires sp.deltaT > 0.0
  {
    var h := Seconds((t1 - t0) as real) / sp.deltaT;
    var u, v := sp.Scaled(t0 as real), sp.Scaled(t1 as real);
    SplineMotion(
      ToKnots(WindowCubic(sp.x, h, u, v)),
      ToKnots(WindowCubic(sp.y, h, u, v)),
      ToKnots(WindowCubic(sp.yaw, h, u, v)))
  }

  lemma AxisFollows(p: Cubic, h: real, u: real, v: real, s: real, t: real)
    requires v == u + h && t == u + s * h
    ensures Basis(ToKnots(WindowCubic(p, h, u, v))).At(s) == p.At(t)
  {
    WindowFollows(p, h, u, v, s, t);
    KnotsRoundTrip(WindowCubic(p, h, u, v), Knots(0.0, 0.0, 0.0, 0.0));
  }

  /** The motion handed to the collision library is the spline's own motion over the window. */
  lemma KnotsFollowSpline(sp: Spline, t0: Time, t1: Time, s: real)
    requires sp.deltaT > 0.0
    ensures ComputeKnots(sp, t0, t1).Pose(s) == sp.Position(t0 as real + s * (t1 - t0) as real)
  {
    var h := Seconds((t1 - t0) as real) / sp.deltaT;
    var u, v := sp.Scaled(t0 as real), sp.Scaled(t1 as real);
    var t := sp.Scaled(t0 as real + s * (t1 - t0) as real);
    WindowTimes(sp, t0, t1, s, h);
    AxisFollows(sp.x, h, u, v, s, t);
    AxisFollows(sp.y, h, u, v, s, t);
    AxisFollows(sp.yaw, h, u, v, s, t);
  }

  // ---------------------------------------------------------------- difference of two motions

  datatype Planar = Planar(x: Cubic, y: Cubic)

  /** A spline's planar coefficients rescaled to a window of `deltaT` seconds. */
  function Normalised(sp: Spline, t0: Time, t1: Time, deltaT: real): Planar
    requires sp.deltaT > 0.0
  {
    PlanarHermite(sp.Sample(t0), sp.Sample(t1), deltaT)
  }

  function PlanarHermite(w0: Waypoint, w1: Waypoint, deltaT: real): Planar {
    var p0, p1, v0, v1 := w0.position, w1.position, w0.velocity, w1.velocity;
    Planar(AxisSegment(p0.x, p1.x, v0.x, v1.x, deltaT), AxisSegment(p0.y, p1.y, v0.y, v1.y, deltaT))
  }

  lemma Rescale(n: real, d: real, x: real)
    requires d > 0.0
    ensures n * ((1.0 / d) * x) == (n / d) * x
  {
    assert n * (1.0 / d) == n / d;
  }

  /** Multiplying real velocities by the window's duration is rescaling the slopes by its width. */
  lemma VelocityWindow(x0: real, x1: real, m0: real, m1: real, n: real, d: real, h: real)
    requires d > 0.0 && h == n / d
    ensures Hermite(x0, x1, n * ((1.0 / d) * m0), n * ((1.0 / d) * m1)) == Hermite(x0, x1, h * m0, h * m1)
  {
    Rescale(n, d, m0);
    Rescale(n, d, m1);
  }

  /** One axis of a segment of `e` seconds between two samples of a spline of `d` seconds. */
  function SampledSegment(x0: real, x1: real, m0: real, m1: real, e: real, d: real): Cubic
    requires d > 0.0
  {
    AxisSegment(x0, x1, Product(1.0 / d, m0), Product(1.0 / d, m1), e)
  }

  lemma SampledSegmentFollows(p: Cubic, x0: real, x1: real, m0: real, m1: real,
                              e: real, d: real, h: real, u: real, v: real, s: real, t: real)
    requires x0 == p.At(u) && x1 == p.At(v) && m0 == p.Slope(u) && m1 == p.Slope(v)
    requires d > 0.0 && h == e / d && v == u + h && t == u + s * h
    ensures SampledSegment(x0, x1, m0, m1, e, d).At(s) == p.At(t)
    ensures SampledSegment(x0, x1, m0, m1, e, d).Slope(s) == h * p.Slope(t)
  {
    VelocityWindow(x0, x1, m0, m1, e, d, h);
    assert SampledSegment(x0, x1, m0, m1, e, d) == WindowCubic(p, h, u, v);
    WindowFollows(p, h, u, v, s, t);
  }

  lemma PlanarIsSegment(w0: Waypoint, w1: Waypoint, m0: Vec3, m1: Vec3, e: real, d: real)
    requires d > 0.0 && w0.velocity == Scale(1.0 / d, m0) && w1.velocity == Scale(1.0 / d, m1)
    ensures PlanarHermite(w0, w1, e).x == SampledSegment(w0.position.x, w1.position.x, m0.x, m1.x, e, d)
    ensures PlanarHermite(w0, w1, e).y == SampledSegment(w0.position.y, w1.position.y, m0.y, m1.y, e, d)
  {
  }

  lemma NormalisedFollows(sp: Spline, t0: Time, t1: Time, deltaT: real, s: real, t: real)
    requires sp.deltaT > 0.0 && deltaT == Seconds((t1 - t0) as real)
    requires t == t0 as real + s * (t1 - t0) as real
    ensures Normalised(sp, t0, t1, deltaT).x.At(s) == sp.Position(t).x
    ensures Normalised(sp, t0, t1, deltaT).y.At(s) == sp.Position(t).y
  {
    var d := sp.deltaT;
    var h := deltaT / d;
    var u, v := sp.Scaled(t0 as real), sp.Scaled(t1 as real);
    WindowTimes(sp, t0, t1, s, h);
    var p0, p1 := sp.Position(t0 as real), sp.Position(t1 as real);
    var m0, m1 := sp.Slopes(t0 as real), sp.Slopes(t1 as real);
    PlanarIsSegment(sp.Sample(t0), sp.Sample(t1), m0, m1, deltaT, d);
    SampledSegmentFollows(sp.x, p0.x, p1.x, m0.x, m1.x, deltaT, d, h, u, v, s, sp.Scaled(t));
    SampledSegmentFollows(sp.y, p0.y, p1.y, m0.y, m1.y, deltaT, d, h, u, v, s, sp.Scaled(t));
  }

  function Minus(p: Cubic, q: Cubic): Cubic { Cubic(p.d - q.d, p.c - q.c, p.b - q.b, p.a - q.a) }

  datatype Differential = Differential(x: Cubic, y: Cubic, deltaT: real, start: Time, finish: Time)

  /** The relative planar motion of two splines over their common time. */
  function DistanceDifferential(a: Spline, b: Spline): Differential
    requires a.deltaT > 0.0 && b.deltaT > 0.0
  {
    var t0 := if a.start < b.start then b.start else a.start;
    var t1 := if b.finish < a.finish then b.finish else a.finish;
    var deltaT := Seconds((t1 - t0) as real);
    var ca, cb := Normalised(a, t0, t1, deltaT), Normalised(b, t0, t1, deltaT);
    Differential(Minus(ca.x, cb.x), Minus(ca.y, cb.y), deltaT, t0, t1)
  }

  lemma OffsetAt(p: Cubic, q: Cubic, s: real, x: real, y: real)
    requires p.At(s) == x && q.At(s) == y
    ensures Minus(p, q).At(s) == x - y
  {
  }

  lemma OffsetOfWindows(a: Spline, b: Spline, t0: Time, t1: Time, deltaT: real, s: real, t: real)
    requires a.deltaT > 0.0 && b.deltaT > 0.0 && deltaT == Seconds((t1 - t0) as real)
    requires t == t0 as real + s * (t1 - t0) as real
    ensures Minus(Normalised(a, t0, t1, deltaT).x, Normalised(b, t0, t1, deltaT).x).At(s)
         == a.Position(t).x - b.Position(t).x
    ensures Minus(Normalised(a, t0, t1, deltaT).y, Normalised(b, t0, t1, deltaT).y).At(s)
         == a.Position(t).y - b.Position(t).y
  {
    var ca, cb := Normalised(a, t0, t1, deltaT), Normalised(b, t0, t1, deltaT);
    NormalisedFollows(a, t0, t1, deltaT, s, t);
    NormalisedFollows(b, t0, t1, deltaT, s, t);
    OffsetAt(ca.x, cb.x, s, a.Position(t).x, b.Position(t).x);
    OffsetAt(ca.y, cb.y, s, a.Position(t).y, b.Position(t).y);
  }

  /** At every moment of the common window the differential is the offset between the two vehicles. */
  lemma DifferentialIsOffset(a: Spline, b: Spline, s: real, d: Differential, t: real)
    requires a.deltaT > 0.0 && b.deltaT > 0.0 && d == DistanceDifferential(a, b)
    requires t == d.start as real + s * (d.finish - d.start) as real
    ensures d.x.At(s) == a.Position(t).x - b.Position(t).x
    ensures d.y.At(s) == a.Position(t).y - b.Position(t).y
  {
    OffsetOfWindows(a, b, d.start, d.finish, d.deltaT, s, t);
  }

  // ---------------------------------------------------------------- segments between samples

  lemma Chain(x: real, e: real, d: real)
    requires e > 0.0 && d > 0.0
    ensures (x / e) * (e / d) == x / d
  {
    assert x / e * e == x;
  }

  lemma ResampleAxis(p: Cubic, x0: real, x1: real, m0: real, m1: real,
                     e: real, d: real, h: real, u: real, v: real, s: real, t: real)
    requires x0 == p.At(u) && x1 == p.At(v) && m0 == p.Slope(u) && m1 == p.Slope(v)
    requires e > 0.0 && d > 0.0 && h == e / d && v == u + h && t == u + s * h
    ensures SampledSegment(x0, x1, m0, m1, e, d).At(s) == p.At(t)
    ensures Product(1.0 / e, SampledSegment(x0, x1, m0, m1, e, d).Slope(s)) == Product(1.0 / d, p.Slope(t))
  {
    SampledSegmentFollows(p, x0, x1, m0, m1, e, d, h, u, v, s, t);
    SlopeBack(e, d, h, p.Slope(t), SampledSegment(x0, x1, m0, m1, e, d).Slope(s));
  }

  lemma SlopeBack(e: real, d: real, h: real, w: real, q: real)
    requires e > 0.0 && d > 0.0 && h == e / d && q == h * w
    ensures Product(1.0 / e, q) == Product(1.0 / d, w)
  {
    Chain(1.0, e, d);
    assert (1.0 / e) * (h * w) == ((1.0 / e) * h) * w;
  }

  lemma MadeIsSegment(w0: Waypoint, w1: Waypoint, m0: Vec3, m1: Vec3, d: real, r: Spline)
    requires d > 0.0 && w0.velocity == Scale(1.0 / d, m0) && w1.velocity == Scale(1.0 / d, m1)
    requires w0.time < w1.time && r == MakeSpline(w0, w1)
    ensures r.x == SampledSegment(w0.position.x, w1.position.x, m0.x, m1.x, r.deltaT, d)
    ensures r.y == SampledSegment(w0.position.y, w1.position.y, m0.y, m1.y, r.deltaT, d)
    ensures r.yaw == SampledSegment(w0.position.yaw, w1.position.yaw, m0.yaw, m1.yaw, r.deltaT, d)
  {
  }

  /** A segment rebuilt between two samples of a spline is that spline, in position and velocity. */
  lemma Resample(sp: Spline, t0: Time, t1: Time, t: real)
    requires sp.deltaT > 0.0 && t0 < t1
    ensures var r := MakeSpline(sp.Sample(t0), sp.Sample(t1));
            r.Position(t) == sp.Position(t) && r.Velocity(t) == sp.Velocity(t)
  {
    var r := MakeSpline(sp.Sample(t0), sp.Sample(t1));
    ResampledAxes(sp, t0, t1, r, r.Scaled(t), sp.Scaled(t), t);
  }

  lemma ResampledAxes(sp: Spline, t0: Time, t1: Time, r: Spline, s: real, k: real, t: real)
    requires sp.deltaT > 0.0 && t0 < t1 && r == MakeSpline(sp.Sample(t0), sp.Sample(t1))
    requires s == r.Scaled(t) && k == sp.Scaled(t)
    ensures r.x.At(s) == sp.x.At(k) && Product(1.0 / r.deltaT, r.x.Slope(s)) == Product(1.0 / sp.deltaT, sp.x.Slope(k))
    ensures r.y.At(s) == sp.y.At(k) && Product(1.0 / r.deltaT, r.y.Slope(s)) == Product(1.0 / sp.deltaT, sp.y.Slope(k))
    ensures r.yaw.At(s) == sp.yaw.At(k)
    ensures Product(1.0 / r.deltaT, r.yaw.Slope(s)) == Product(1.0 / sp.deltaT, sp.yaw.Slope(k))
  {
    var e, d := r.deltaT, sp.deltaT;
    var h, u, v := e / d, sp.Scaled(t0 as real), sp.Scaled(t1 as real);
    WindowTimes(sp, t0, t1, s, h);
    ResampleTime(sp, t0, t, e, h, s);
    var p0, p1 := sp.Position(t0 as real), sp.Position(t1 as real);
    var m0, m1 := sp.Slopes(t0 as real), sp.Slopes(t1 as real);
    MadeIsSegment(sp.Sample(t0), sp.Sample(t1), m0, m1, d, r);
    ResampleAxis(sp.x, p0.x, p1.x, m0.x, m1.x, e, d, h, u, v, s, k);
    ResampleAxis(sp.y, p0.y, p1.y, m0.y, m1.y, e, d, h, u, v, s, k);
    ResampleAxis(sp.yaw, p0.yaw, p1.yaw, m0.yaw, m1.yaw, e, d, h, u, v, s, k);
  }

  lemma ResampleTime(sp: Spline, t0: Time, t: real, e: real, h: real, s: real)
    requires sp.deltaT > 0.0 && e > 0.0 && h == e / sp.deltaT && s == Seconds(t - t0 as real) / e
    ensures sp.Scaled(t) == sp.Scaled(t0 as real) + s * h
  {
    var w := t - t0 as real;
    Chain(Seconds(w), e, sp.deltaT);
    ScaledAffine(sp, t0 as real, w, 1.0, Seconds(w) / sp.deltaT);
    assert t0 as real + 1.0 * w == t;
  }
}
