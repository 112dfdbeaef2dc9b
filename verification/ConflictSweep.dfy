/**
 Conflict detection between two moving vehicles: a two-iterator sweep over the
 segments of both trajectories, with a bounding-box filter in front of the
 narrow-phase collision test, which stays uninterpreted.
 */
module ConflictSweep {
  import opened OrderMaps
  import opened Waypoints
  import opened Splines
  import opened Extrema

  // ---------------------------------------------------------------- geometry

  datatype Shape = Shape(id: nat, characteristicLength: real)
  datatype Profile = Profile(footprint: Option<Shape>, vicinity: Option<Shape>)

  /** A missing vicinity is as large as the footprint. */
  function ConvertProfile(p: Profile): (r: Profile)
    ensures r.footprint == p.footprint && (p.vicinity.Some? ==> r.vicinity == p.vicinity)
    ensures r.vicinity.None? <==> p.vicinity.None? && p.footprint.None?
  {
    if p.vicinity.None? then p.(vicinity := p.footprint) else p
  }

  type NarrowPhase = (Shape, SplineMotion, Shape, SplineMotion) -> Option<real>

  /** A contact brings the centres within the two characteristic lengths on both axes. */
  ghost predicate ContactIsClose(narrow: NarrowPhase) {
    forall sa, ma, sb, mb :: narrow(sa, ma, sb, mb).Some? ==>
      exists s :: Near(ma.Pose(s), mb.Pose(s), sa.characteristicLength + sb.characteristicLength, s)
  }

  predicate Near(p: Vec3, q: Vec3, reach: real, s: real) {
    0.0 <= s <= 1.0 && Abs(p.x - q.x) <= reach && Abs(p.y - q.y) <= reach
  }

  ghost predicate IsSqrt(sqrt: real -> real) {
    forall x :: x >= 0.0 ==> sqrt(x) >= 0.0 && sqrt(x) * sqrt(x) == x
  }

  /** Do two shapes overlap in these poses? */
  type StaticTest = (Shape, Vec3, Shape, Vec3) -> bool

  datatype Box = VoidBox | Box(minX: real, minY: real, maxX: real, maxY: real)

  function BoundingBox(sp: Spline, sqrt: real -> real): Box {
    var x := LocalExtrema(sp.x, sqrt(Discriminant(sp.x)));
    var y := LocalExtrema(sp.y, sqrt(Discriminant(sp.y)));
    Box(x.0, y.0, x.1, y.1)
  }

  /** The box of a shape that follows the spline; no shape overlaps nothing. */
  function ShapeBox(sp: Spline, sqrt: real -> real, shape: Option<Shape>): Box {
    if shape.None? then VoidBox
    else
      var b, v := BoundingBox(sp, sqrt), shape.value.characteristicLength;
      Box(b.minX - v, b.minY - v, b.maxX + v, b.maxY + v)
  }

  predicate Overlap(a: Box, b: Box) {
    && a.Box? && b.Box?
    && !(a.maxX < b.minX) && !(b.maxX < a.minX)
    && !(a.maxY < b.minY) && !(b.maxY < a.minY)
  }

  ghost predicate InBox(b: Box, x: real, y: real) {
    b.Box? && b.minX <= x <= b.maxX && b.minY <= y <= b.maxY
  }

  /** Boxes overlap exactly when they share a point. */
  lemma OverlapMeans(a: Box, b: Box)
    requires a.Box? ==> a.minX <= a.maxX && a.minY <= a.maxY
    requires b.Box? ==> b.minX <= b.maxX && b.minY <= b.maxY
    ensures Overlap(a, b) <==> exists x, y :: InBox(a, x, y) && InBox(b, x, y)
  {
    if Overlap(a, b) {
      var x, y := if a.minX < b.minX then b.minX else a.minX, if a.minY < b.minY then b.minY else a.minY;
      assert InBox(a, x, y) && InBox(b, x, y);
    }
  }

  /** The box of a shape holds exactly the points within its length, on each axis, of the segment's own box. */
  lemma ShapeBoxMeans(sp: Spline, sqrt: real -> real, shape: Shape, x: real, y: real)
    requires shape.characteristicLength >= 0.0
    ensures InBox(ShapeBox(sp, sqrt, Some(shape)), x, y) <==>
      exists u, v :: InBox(BoundingBox(sp, sqrt), u, v) && Abs(x - u) <= shape.characteristicLength
                     && Abs(y - v) <= shape.characteristicLength
  {
    var b := BoundingBox(sp, sqrt);
    ExtremaOrdered(sp.x, sqrt(Discriminant(sp.x)));
    ExtremaOrdered(sp.y, sqrt(Discriminant(sp.y)));
    if InBox(ShapeBox(sp, sqrt, Some(shape)), x, y) {
      var u := if x < b.minX then b.minX else if b.maxX < x then b.maxX else x;
      var v := if y < b.minY then b.minY else if b.maxY < y then b.maxY else y;
      assert InBox(b, u, v) && Abs(x - u) <= shape.characteristicLength && Abs(y - v) <= shape.characteristicLength;
    }
  }

  lemma ExtremaOrdered(p: Cubic, root: real)
    ensures LocalExtrema(p, root).0 <= LocalExtrema(p, root).1
  {
    var ts := CandidateTimes(p, root);
    MinAtBelow(p, ts, 0);
    MinAtBelow(Neg(p), ts, 0);
    MaxIsMinOfNeg(p, ts);
    NegAt(p, ts[0]);
  }

  // ---------------------------------------------------------------- windows of the sweep

  datatype Window = Window(i: nat, j: nat)

  /** Both iterators point at the end of a segment, and the two segments share a moment. */
  ghost predicate SharedSegments(a: seq<Waypoint>, b: seq<Waypoint>, w: Window) {
    && 0 < w.i < |a| && 0 < w.j < |b|
    && a[w.i - 1].time <= b[w.j].time && b[w.j - 1].time <= a[w.i].time
  }

  function MaxTime(t: Time, u: Time): Time { if t < u then u else t }
  function MinTime(t: Time, u: Time): Time { if u < t then u else t }

  function StartOf(a: seq<Waypoint>, b: seq<Waypoint>, w: Window): Time
    requires 0 < w.i < |a| && 0 < w.j < |b|
  {
    MaxTime(a[w.i - 1].time, b[w.j - 1].time)
  }

  function FinishOf(a: seq<Waypoint>, b: seq<Waypoint>, w: Window): Time
    requires 0 < w.i < |a| && 0 < w.j < |b|
  {
    MinTime(a[w.i].time, b[w.j].time)
  }

  /** The iterator whose segment finishes first moves on; both do on a tie. */
  function NextWindow(a: seq<Waypoint>, b: seq<Waypoint>, w: Window): Window
    requires w.i < |a| && w.j < |b|
  {
    if a[w.i].time < b[w.j].time then Window(w.i + 1, w.j)
    else if b[w.j].time < a[w.i].time then Window(w.i, w.j + 1)
    else Window(w.i + 1, w.j + 1)
  }

  ghost function Windows(a: seq<Waypoint>, b: seq<Waypoint>, w: Window): seq<Window>
    decreases |a| + |b| - w.i - w.j
  {
    if w.i < |a| && w.j < |b| then [w] + Windows(a, b, NextWindow(a, b, w)) else []
  }

  /** Consecutive windows that share their ends and run from `lo` to `hi`. */
  ghost predicate Tiles(a: seq<Waypoint>, b: seq<Waypoint>, ws: seq<Window>, lo: Time, hi: Time) {
    && ws != []
    && SharedSegments(a, b, ws[0])
    && StartOf(a, b, ws[0]) == lo
    && lo <= FinishOf(a, b, ws[0])
    && if |ws| == 1 then FinishOf(a, b, ws[0]) == hi else Tiles(a, b, ws[1..], FinishOf(a, b, ws[0]), hi)
  }

  lemma {:induction false} NextShares(a: seq<Waypoint>, b: seq<Waypoint>, w: Window)
    requires InOrder(a) && InOrder(b) && SharedSegments(a, b, w)
    ensures var n := NextWindow(a, b, w);
      if n.i < |a| && n.j < |b|
      then SharedSegments(a, b, n) && StartOf(a, b, n) == FinishOf(a, b, w)
      else FinishOf(a, b, w) == MinTime(a[|a| - 1].time, b[|b| - 1].time)
  {
  }

  /** From any pair of segments that share a moment, the sweep tiles the rest of the common time. */
  lemma {:induction false} SweepTiles(a: seq<Waypoint>, b: seq<Waypoint>, w: Window)
    requires InOrder(a) && InOrder(b) && SharedSegments(a, b, w)
    ensures Tiles(a, b, Windows(a, b, w), StartOf(a, b, w), MinTime(a[|a| - 1].time, b[|b| - 1].time))
    decreases |a| + |b| - w.i - w.j
  {
    var n := NextWindow(a, b, w);
    NextShares(a, b, w);
    assert a[w.i - 1].time < a[w.i].time && b[w.j - 1].time < b[w.j].time;
    assert Windows(a, b, w)[1..] == Windows(a, b, n);
    if n.i < |a| && n.j < |b| {
      SweepTiles(a, b, n);
    }
  }

  // ---------------------------------------------------------------- where the sweep starts

  predicate HaveTimeOverlap(a: seq<Waypoint>, b: seq<Waypoint>)
    requires a != [] && b != []
  {
    !(b[|b| - 1].time < a[0].time) && !(a[|a| - 1].time < b[0].time)
  }

  /** The trajectories overlap in time exactly when both cover some moment. */
  lemma {:induction false} TimeOverlapMeans(a: seq<Waypoint>, b: seq<Waypoint>)
    requires InOrder(a) && InOrder(b) && a != [] && b != []
    ensures HaveTimeOverlap(a, b) <==> exists t: Time :: OnTheWay(a, t) && OnTheWay(b, t)
  {
    if HaveTimeOverlap(a, b) {
      var t := MaxTime(a[0].time, b[0].time);
      assert OnTheWay(a, t) && OnTheWay(b, t);
    }
  }

  ghost predicate OnTheWay(ws: seq<Waypoint>, t: Time) {
    ws != [] && ws[0].time <= t <= ws[|ws| - 1].time
  }

  /** The trajectory that starts earlier is entered where the other one starts. */
  ghost function InitialWindow(a: seq<Waypoint>, b: seq<Waypoint>): Window
    requires |a| >= 2 && |b| >= 2
  {
    if a[0].time < b[0].time then Window(LowerIndex(a, b[0].time), 1)
    else if b[0].time < a[0].time then Window(1, LowerIndex(b, a[0].time))
    else Window(1, 1)
  }

  lemma {:induction false} InitialShares(a: seq<Waypoint>, b: seq<Waypoint>)
    requires InOrder(a) && InOrder(b) && |a| >= 2 && |b| >= 2 && HaveTimeOverlap(a, b)
    ensures var w := InitialWindow(a, b);
      SharedSegments(a, b, w) && StartOf(a, b, w) == MaxTime(a[0].time, b[0].time)
  {
    assert a[0].time < a[1].time && b[0].time < b[1].time;
    if a[0].time < b[0].time {
      EnteredSegment(a, b[0].time);
    } else if b[0].time < a[0].time {
      EnteredSegment(b, a[0].time);
    }
  }

  lemma {:induction false} EnteredSegment(ws: seq<Waypoint>, t: Time)
    requires InOrder(ws) && ws != [] && ws[0].time < t <= ws[|ws| - 1].time
    ensures var k := LowerIndex(ws, t); 0 < k < |ws| && ws[k - 1].time < t <= ws[k].time
  {
  }

  /** The windows of two overlapping trajectories exactly tile their common time. */
  lemma {:induction false} SweepCoversCommonTime(a: seq<Waypoint>, b: seq<Waypoint>)
    requires InOrder(a) && InOrder(b) && |a| >= 2 && |b| >= 2 && HaveTimeOverlap(a, b)
    ensures Tiles(a, b, Windows(a, b, InitialWindow(a, b)),
                  MaxTime(a[0].time, b[0].time), MinTime(a[|a| - 1].time, b[|b| - 1].time))
  {
    InitialShares(a, b);
    SweepTiles(a, b, InitialWindow(a, b));
  }

  // ---------------------------------------------------------------- contacts of a window

  datatype Conflict = Conflict(aIt: nat, bIt: nat, time: Time)

  /** Conversion of a duration to whole nanoseconds, towards zero. */
  function Truncate(x: real): int { if x < 0.0 then -((-x).Floor) else x.Floor }

  function ComputeTime(scaled: real, start: Time, finish: Time): Time {
    start + Truncate(scaled * (finish - start) as real)
  }

  /** A test of two shapes that follow two segments from `start` to `finish`; its result is when they meet. */
  type Test = (Option<Shape>, Spline, Option<Shape>, Spline, Time, Time) -> Option<real>

  /** The narrow phase alone, if both shapes exist. */
  function Meet(narrow: NarrowPhase, sa: Option<Shape>, spA: Spline, sb: Option<Shape>, spB: Spline,
                start: Time, finish: Time): Option<real>
  {
    if sa.Some? && sb.Some? && spA.deltaT > 0.0 && spB.deltaT > 0.0 then
      narrow(sa.value, ComputeKnots(spA, start, finish), sb.value, ComputeKnots(spB, start, finish))
    else None
  }

  /** The box filter in front of the narrow phase. */
  function FilteredMeet(narrow: NarrowPhase, sqrt: real -> real, sa: Option<Shape>, spA: Spline,
                        sb: Option<Shape>, spB: Spline, start: Time, finish: Time): Option<real>
  {
    if Overlap(ShapeBox(spA, sqrt, sa), ShapeBox(spB, sqrt, sb)) then Meet(narrow, sa, spA, sb, spB, start, finish)
    else None
  }

  function NarrowTest(narrow: NarrowPhase): Test {
    (sa: Option<Shape>, spA: Spline, sb: Option<Shape>, spB: Spline, start: Time, finish: Time) =>
      Meet(narrow, sa, spA, sb, spB, start, finish)
  }

  function FilteredTest(narrow: NarrowPhase, sqrt: real -> real): Test {
    (sa: Option<Shape>, spA: Spline, sb: Option<Shape>, spB: Spline, start: Time, finish: Time) =>
      FilteredMeet(narrow, sqrt, sa, spA, sb, spB, start, finish)
  }

  function TestComplement(pa: Profile, pb: Profile): bool {
    pa.vicinity != pa.footprint || pb.vicinity != pb.footprint
  }

  ghost function Report(c: Option<real>, w: Window, start: Time, finish: Time): seq<Conflict> {
    if c.Some? then [Conflict(w.i, w.j, ComputeTime(c.value, start, finish))] else []
  }

  /** The conflicts of a window. */
  ghost function WindowConflicts(test: Test, pa: Profile, a: seq<Waypoint>,
                                 pb: Profile, b: seq<Waypoint>, w: Window): seq<Conflict>
    requires InOrder(a) && InOrder(b) && 0 < w.i < |a| && 0 < w.j < |b|
  {
    SegmentConflicts(test, pa, MakeSpline(a[w.i - 1], a[w.i]), pb, MakeSpline(b[w.j - 1], b[w.j]), w)
  }

  /** Footprint against vicinity, and the other way round unless that is the same test. */
  ghost function SegmentConflicts(test: Test, pa: Profile, spA: Spline, pb: Profile, spB: Spline, w: Window)
    : seq<Conflict>
  {
    var start, finish := MaxTime(spA.start, spB.start), MinTime(spA.finish, spB.finish);
    Report(test(pa.footprint, spA, pb.vicinity, spB, start, finish), w, start, finish)
    + if TestComplement(pa, pb) then Report(test(pa.vicinity, spA, pb.footprint, spB, start, finish), w, start, finish)
      else []
  }

  /** The conflicts of all windows from one on, whatever a single window reports. */
  ghost function Collected(report: Window -> seq<Conflict>, a: seq<Waypoint>, b: seq<Waypoint>, w: Window)
    : seq<Conflict>
    decreases |a| + |b| - w.i - w.j
  {
    if w.i < |a| && w.j < |b| then report(w) + Collected(report, a, b, NextWindow(a, b, w)) else []
  }

  /** All conflicts from a window on. */
  ghost function SweepConflicts(test: Test, pa: Profile, a: seq<Waypoint>,
                                pb: Profile, b: seq<Waypoint>, w: Window): seq<Conflict>
    requires InOrder(a) && InOrder(b)
  {
    Collected(Reporter(test, pa, a, pb, b), a, b, w)
  }

  ghost function Reporter(test: Test, pa: Profile, a: seq<Waypoint>, pb: Profile, b: seq<Waypoint>)
    : Window -> seq<Conflict>
    requires InOrder(a) && InOrder(b)
  {
    (w: Window) => if 0 < w.i < |a| && 0 < w.j < |b| then WindowConflicts(test, pa, a, pb, b, w) else []
  }

  ghost predicate Touches(test: Test, pa: Profile, a: seq<Waypoint>, pb: Profile, b: seq<Waypoint>, w: Window)
    requires InOrder(a) && InOrder(b)
  {
    && 0 < w.i < |a| && 0 < w.j < |b|
    && var start, finish := StartOf(a, b, w), FinishOf(a, b, w);
       var spA, spB := MakeSpline(a[w.i - 1], a[w.i]), MakeSpline(b[w.j - 1], b[w.j]);
       || test(pa.footprint, spA, pb.vicinity, spB, start, finish).Some?
       || test(pa.vicinity, spA, pb.footprint, spB, start, finish).Some?
  }

  /** Skipping the complementary test never hides a contact. */
  lemma {:induction false} NoConflictMeansNoTouch(test: Test, pa: Profile, a: seq<Waypoint>, pb: Profile,
                                                  b: seq<Waypoint>, w: Window)
    requires InOrder(a) && InOrder(b) && w.i > 0 && w.j > 0
    ensures SweepConflicts(test, pa, a, pb, b, w) == []
       <==> forall x :: x in Windows(a, b, w) ==> !Touches(test, pa, a, pb, b, x)
    decreases |a| + |b| - w.i - w.j
  {
    if w.i < |a| && w.j < |b| {
      var n := NextWindow(a, b, w);
      NoConflictMeansNoTouch(test, pa, a, pb, b, n);
      assert Windows(a, b, w) == [w] + Windows(a, b, n);
      assert Reporter(test, pa, a, pb, b)(w) == WindowConflicts(test, pa, a, pb, b, w);
      assert Touches(test, pa, a, pb, b, w) <==> WindowConflicts(test, pa, a, pb, b, w) != [];
    }
  }

  // ---------------------------------------------------------------- the filter never hides a contact

  /** The extrema of both planar axes enclose the spline. */
  ghost predicate BoxEncloses(sp: Spline, sqrt: real -> real) {
    && Encloses(sp.x, LocalExtrema(sp.x, sqrt(Discriminant(sp.x))))
    && Encloses(sp.y, LocalExtrema(sp.y, sqrt(Discriminant(sp.y))))
  }

  /** Both planar axes are computed without a tolerance. */
  ghost predicate ExactBox(sp: Spline) {
    ExactBranch(sp.x) && ExactBranch(sp.y)
  }

  lemma ExactBoxEncloses(sp: Spline, sqrt: real -> real)
    requires IsSqrt(sqrt) && ExactBox(sp)
    ensures BoxEncloses(sp, sqrt)
  {
    ExactAxisEncloses(sp.x, sqrt);
    ExactAxisEncloses(sp.y, sqrt);
  }

  lemma ExactAxisEncloses(p: Cubic, sqrt: real -> real)
    requires IsSqrt(sqrt) && ExactBranch(p)
    ensures Encloses(p, LocalExtrema(p, sqrt(Discriminant(p))))
  {
    var x := Discriminant(p);
    assert x >= 0.0 ==> sqrt(x) >= 0.0 && sqrt(x) * sqrt(x) == x;
    ExactBranchEncloses(p, sqrt(x));
  }

  lemma ScaledInUnit(sp: Spline, t: real)
    requires sp.Valid() && sp.deltaT > 0.0 && sp.start as real <= t <= sp.finish as real
    ensures 0.0 <= sp.Scaled(t) <= 1.0
  {
    var x := Seconds(t - sp.start as real);
    assert 0.0 <= x <= sp.deltaT;
    UnitQuotient(x, sp.deltaT);
  }

  lemma UnitQuotient(x: real, d: real)
    requires d > 0.0 && 0.0 <= x <= d
    ensures 0.0 <= x / d <= 1.0
  {
  }

  lemma Between(start: Time, finish: Time, s: real)
    requires start <= finish && 0.0 <= s <= 1.0
    ensures start as real <= start as real + s * (finish - start) as real <= finish as real
  {
    var w := (finish - start) as real;
    NonNegativeProduct(s, w);
    NonNegativeProduct(1.0 - s, w);
    assert (1.0 - s) * w == w - s * w;
  }

  /** Anywhere in a window the vehicle's centre stays in the box of its whole segment. */
  lemma PoseInBox(sp: Spline, sqrt: real -> real, start: Time, finish: Time, s: real)
    requires sp.Valid() && sp.deltaT > 0.0 && BoxEncloses(sp, sqrt)
    requires sp.start <= start <= finish <= sp.finish && 0.0 <= s <= 1.0
    ensures var p, b := ComputeKnots(sp, start, finish).Pose(s), BoundingBox(sp, sqrt);
            b.minX <= p.x <= b.maxX && b.minY <= p.y <= b.maxY
  {
    var t := start as real + s * (finish - start) as real;
    KnotsFollowSpline(sp, start, finish, s);
    Between(start, finish, s);
    ScaledInUnit(sp, t);
    var u := sp.Scaled(t);
    var ex, ey := LocalExtrema(sp.x, sqrt(Discriminant(sp.x))), LocalExtrema(sp.y, sqrt(Discriminant(sp.y)));
    assert ex.0 <= sp.x.At(u) <= ex.1 && ey.0 <= sp.y.At(u) <= ey.1;
  }

  lemma NearBoxesOverlap(p: Vec3, q: Vec3, a: Box, b: Box, la: real, lb: real, s: real)
    requires a.Box? && b.Box? && Near(p, q, la + lb, s)
    requires a.minX <= p.x <= a.maxX && a.minY <= p.y <= a.maxY
    requires b.minX <= q.x <= b.maxX && b.minY <= q.y <= b.maxY
    ensures Overlap(Box(a.minX - la, a.minY - la, a.maxX + la, a.maxY + la),
                    Box(b.minX - lb, b.minY - lb, b.maxX + lb, b.maxY + lb))
  {
  }

  /** Where the boxes enclose their segments the filter changes nothing. */
  lemma FilterKeepsContacts(narrow: NarrowPhase, sqrt: real -> real, sa: Option<Shape>, spA: Spline,
                            sb: Option<Shape>, spB: Spline, start: Time, finish: Time)
    requires ContactIsClose(narrow)
    requires spA.Valid() && spA.deltaT > 0.0 && BoxEncloses(spA, sqrt)
    requires spB.Valid() && spB.deltaT > 0.0 && BoxEncloses(spB, sqrt)
    requires spA.start <= start <= finish <= spA.finish && spB.start <= start <= finish <= spB.finish
    ensures FilteredMeet(narrow, sqrt, sa, spA, sb, spB, start, finish)
         == Meet(narrow, sa, spA, sb, spB, start, finish)
  {
    var ma, mb := ComputeKnots(spA, start, finish), ComputeKnots(spB, start, finish);
    if sa.Some? && sb.Some? && narrow(sa.value, ma, sb.value, mb).Some? {
      var la, lb := sa.value.characteristicLength, sb.value.characteristicLength;
      var s :| Near(ma.Pose(s), mb.Pose(s), la + lb, s);
      PoseInBox(spA, sqrt, start, finish, s);
      PoseInBox(spB, sqrt, start, finish, s);
      NearBoxesOverlap(ma.Pose(s), mb.Pose(s), BoundingBox(spA, sqrt), BoundingBox(spB, sqrt), la, lb, s);
    }
  }

  /** Every segment of the trajectory has a box that encloses it. */
  ghost predicate AllBoxesEnclose(ws: seq<Waypoint>, sqrt: real -> real)
    requires InOrder(ws)
  {
    forall k :: 0 < k < |ws| ==> SegmentBoxEncloses(ws, sqrt, k)
  }

  ghost predicate SegmentBoxEncloses(ws: seq<Waypoint>, sqrt: real -> real, k: nat)
    requires InOrder(ws) && 0 < k < |ws|
  {
    BoxEncloses(MakeSpline(ws[k - 1], ws[k]), sqrt)
  }

  /** Contacts are close, and the boxes of both trajectories enclose them. */
  ghost predicate FilterIsSound(narrow: NarrowPhase, sqrt: real -> real, a: seq<Waypoint>, b: seq<Waypoint>)
    requires InOrder(a) && InOrder(b)
  {
    ContactIsClose(narrow) && AllBoxesEnclose(a, sqrt) && AllBoxesEnclose(b, sqrt)
  }

  lemma SoundSegments(narrow: NarrowPhase, sqrt: real -> real, pa: Profile, spA: Spline, pb: Profile, spB: Spline,
                      w: Window)
    requires ContactIsClose(narrow)
    requires spA.Valid() && spA.deltaT > 0.0 && BoxEncloses(spA, sqrt)
    requires spB.Valid() && spB.deltaT > 0.0 && BoxEncloses(spB, sqrt)
    requires spA.start <= spB.finish && spB.start <= spA.finish
    ensures SegmentConflicts(FilteredTest(narrow, sqrt), pa, spA, pb, spB, w)
         == SegmentConflicts(NarrowTest(narrow), pa, spA, pb, spB, w)
  {
    var start, finish := MaxTime(spA.start, spB.start), MinTime(spA.finish, spB.finish);
    FilterKeepsContacts(narrow, sqrt, pa.footprint, spA, pb.vicinity, spB, start, finish);
    FilterKeepsContacts(narrow, sqrt, pa.vicinity, spA, pb.footprint, spB, start, finish);
  }

  lemma {:induction false} SoundWindow(narrow: NarrowPhase, sqrt: real -> real, pa: Profile, a: seq<Waypoint>,
                                       pb: Profile, b: seq<Waypoint>, w: Window)
    requires InOrder(a) && InOrder(b) && FilterIsSound(narrow, sqrt, a, b) && SharedSegments(a, b, w)
    ensures WindowConflicts(FilteredTest(narrow, sqrt), pa, a, pb, b, w)
         == WindowConflicts(NarrowTest(narrow), pa, a, pb, b, w)
  {
    var spA, spB := MakeSpline(a[w.i - 1], a[w.i]), MakeSpline(b[w.j - 1], b[w.j]);
    assert SegmentBoxEncloses(a, sqrt, w.i) && SegmentBoxEncloses(b, sqrt, w.j);
    WindowReady(a, sqrt, w.i, spA);
    WindowReady(b, sqrt, w.j, spB);
    SoundSegments(narrow, sqrt, pa, spA, pb, spB, w);
    WindowOfSplines(FilteredTest(narrow, sqrt), pa, a, spA, pb, b, spB, w);
    WindowOfSplines(NarrowTest(narrow), pa, a, spA, pb, b, spB, w);
  }

  lemma {:induction false} WindowOfSplines(test: Test, pa: Profile, a: seq<Waypoint>, spA: Spline, pb: Profile,
                                           b: seq<Waypoint>, spB: Spline, w: Window)
    requires InOrder(a) && InOrder(b) && 0 < w.i < |a| && 0 < w.j < |b|
    requires spA == MakeSpline(a[w.i - 1], a[w.i]) && spB == MakeSpline(b[w.j - 1], b[w.j])
    ensures WindowConflicts(test, pa, a, pb, b, w) == SegmentConflicts(test, pa, spA, pb, spB, w)
  {
  }

  /** The filter never changes what a sweep reports, where the boxes enclose their segments. */
  lemma {:induction false} SoundSweep(narrow: NarrowPhase, sqrt: real -> real, pa: Profile, a: seq<Waypoint>,
                                      pb: Profile, b: seq<Waypoint>, w: Window)
    requires InOrder(a) && InOrder(b) && FilterIsSound(narrow, sqrt, a, b)
    requires w.i < |a| && w.j < |b| ==> SharedSegments(a, b, w)
    ensures SweepConflicts(FilteredTest(narrow, sqrt), pa, a, pb, b, w)
         == SweepConflicts(NarrowTest(narrow), pa, a, pb, b, w)
    decreases |a| + |b| - w.i - w.j
  {
    if w.i < |a| && w.j < |b| {
      SoundWindow(narrow, sqrt, pa, a, pb, b, w);
      NextShares(a, b, w);
      SoundSweep(narrow, sqrt, pa, a, pb, b, NextWindow(a, b, w));
      assert Reporter(FilteredTest(narrow, sqrt), pa, a, pb, b)(w) == Reporter(NarrowTest(narrow), pa, a, pb, b)(w);
    }
  }

  /** With any boxes at all, the filter invents no contact. */
  lemma {:induction false} FilterInventsNothing(narrow: NarrowPhase, sqrt: real -> real, pa: Profile, a: seq<Waypoint>,
                                                pb: Profile, b: seq<Waypoint>, w: Window)
    requires InOrder(a) && InOrder(b)
    ensures Touches(FilteredTest(narrow, sqrt), pa, a, pb, b, w) ==> Touches(NarrowTest(narrow), pa, a, pb, b, w)
  {
  }

  // ---------------------------------------------------------------- when a conflict is

  /** The moment at the fraction `s` of the way from `start` to `finish`. */
  function MomentAt(start: Time, finish: Time, s: real): real {
    start as real + s * (finish - start) as real
  }

  /** The whole nanosecond in which that moment lies. */
  ghost predicate HappensAt(time: Time, start: Time, finish: Time, s: real) {
    0.0 <= s <= 1.0 ==>
      start <= time <= finish && time as real <= MomentAt(start, finish, s) < time as real + 1.0
  }

  lemma ComputedMoment(s: real, start: Time, finish: Time)
    requires start <= finish
    ensures HappensAt(ComputeTime(s, start, finish), start, finish, s)
  {
    if 0.0 <= s <= 1.0 {
      var w := (finish - start) as real;
      NonNegativeProduct(s, w);
      NonNegativeProduct(1.0 - s, w);
      assert (1.0 - s) * w == w - s * w;
    }
  }

  /**
   The narrow phase found a contact of the two vehicles at the fraction `s` of their common window,
   the conflict is dated to that moment, and the poses that were judged are their positions then.
   */
  ghost predicate Judged(narrow: NarrowPhase, pa: Profile, spA: Spline, pb: Profile, spB: Spline, time: Time, s: real)
    requires spA.deltaT > 0.0 && spB.deltaT > 0.0
  {
    var start, finish := MaxTime(spA.start, spB.start), MinTime(spA.finish, spB.finish);
    && (|| Meet(narrow, pa.footprint, spA, pb.vicinity, spB, start, finish) == Some(s)
        || Meet(narrow, pa.vicinity, spA, pb.footprint, spB, start, finish) == Some(s))
    && HappensAt(time, start, finish, s)
    && ComputeKnots(spA, start, finish).Pose(s) == spA.Position(MomentAt(start, finish, s))
    && ComputeKnots(spB, start, finish).Pose(s) == spB.Position(MomentAt(start, finish, s))
  }

  /** A conflict belongs to a pair of segments that share a moment, and was judged there. */
  ghost predicate IsExplained(c: Conflict, narrow: NarrowPhase, pa: Profile, a: seq<Waypoint>,
                              pb: Profile, b: seq<Waypoint>)
    requires InOrder(a) && InOrder(b)
  {
    SharedSegments(a, b, Window(c.aIt, c.bIt)) &&
    var spA, spB := MakeSpline(a[c.aIt - 1], a[c.aIt]), MakeSpline(b[c.bIt - 1], b[c.bIt]);
    exists s :: Judged(narrow, pa, spA, pb, spB, c.time, s)
  }

  lemma PoseFollows(sp: Spline, start: Time, finish: Time, s: real)
    requires sp.deltaT > 0.0
    ensures ComputeKnots(sp, start, finish).Pose(s) == sp.Position(MomentAt(start, finish, s))
  {
    KnotsFollowSpline(sp, start, finish, s);
  }

  lemma {:induction false} SegmentsJudged(narrow: NarrowPhase, sqrt: real -> real, pa: Profile, spA: Spline,
                                          pb: Profile, spB: Spline, w: Window, c: Conflict) returns (s: real)
    requires spA.deltaT > 0.0 && spB.deltaT > 0.0
    requires c in SegmentConflicts(FilteredTest(narrow, sqrt), pa, spA, pb, spB, w)
    requires MaxTime(spA.start, spB.start) <= MinTime(spA.finish, spB.finish)
    ensures Judged(narrow, pa, spA, pb, spB, c.time, s) && c.aIt == w.i && c.bIt == w.j
  {
    var start, finish := MaxTime(spA.start, spB.start), MinTime(spA.finish, spB.finish);
    var x := FilteredMeet(narrow, sqrt, pa.footprint, spA, pb.vicinity, spB, start, finish);
    var y := FilteredMeet(narrow, sqrt, pa.vicinity, spA, pb.footprint, spB, start, finish);
    s := if c in Report(x, w, start, finish) then x.value else y.value;
    ComputedMoment(s, start, finish);
    PoseFollows(spA, start, finish, s);
    PoseFollows(spB, start, finish, s);
  }

  lemma {:induction false} WindowExplained(narrow: NarrowPhase, sqrt: real -> real, pa: Profile, a: seq<Waypoint>,
                                           pb: Profile, b: seq<Waypoint>, w: Window, c: Conflict)
    requires InOrder(a) && InOrder(b) && SharedSegments(a, b, w)
    requires c in WindowConflicts(FilteredTest(narrow, sqrt), pa, a, pb, b, w)
    ensures IsExplained(c, narrow, pa, a, pb, b) && c.aIt == w.i && c.bIt == w.j
  {
    var spA, spB := MakeSpline(a[w.i - 1], a[w.i]), MakeSpline(b[w.j - 1], b[w.j]);
    WindowOfSplines(FilteredTest(narrow, sqrt), pa, a, spA, pb, b, spB, w);
    var s := SegmentsJudged(narrow, sqrt, pa, spA, pb, spB, w, c);
    assert Window(c.aIt, c.bIt) == w;
  }

  /** The conflict is explained by one of the windows from a given one on. */
  ghost predicate FoundFrom(c: Conflict, narrow: NarrowPhase, pa: Profile, a: seq<Waypoint>,
                            pb: Profile, b: seq<Waypoint>, first: Window)
    requires InOrder(a) && InOrder(b)
  {
    IsExplained(c, narrow, pa, a, pb, b) && Window(c.aIt, c.bIt) in Windows(a, b, first)
  }

  /** Every conflict of a sweep is explained, and belongs to one of its windows. */
  lemma {:induction false} SweepExplained(narrow: NarrowPhase, sqrt: real -> real, pa: Profile, a: seq<Waypoint>,
                                          pb: Profile, b: seq<Waypoint>, w: Window, c: Conflict)
    requires InOrder(a) && InOrder(b) && (w.i < |a| && w.j < |b| ==> SharedSegments(a, b, w))
    requires c in SweepConflicts(FilteredTest(narrow, sqrt), pa, a, pb, b, w)
    ensures FoundFrom(c, narrow, pa, a, pb, b, w)
    decreases |a| + |b| - w.i - w.j
  {
    var n := NextWindow(a, b, w);
    if c in SweepConflicts(FilteredTest(narrow, sqrt), pa, a, pb, b, n) {
      NextShares(a, b, w);
      SweepExplained(narrow, sqrt, pa, a, pb, b, n, c);
    } else {
      assert c in Reporter(FilteredTest(narrow, sqrt), pa, a, pb, b)(w);
      WindowExplained(narrow, sqrt, pa, a, pb, b, w, c);
    }
  }

  // ---------------------------------------------------------------- the sweep itself

  /** One guarded test: the box filter first, then the narrow phase. */
  method FilteredReport(narrow: NarrowPhase, sqrt: real -> real, sa: Option<Shape>, spA: Spline, ma: SplineMotion,
                        sb: Option<Shape>, spB: Spline, mb: SplineMotion, w: Window, start: Time, finish: Time)
    returns (found: seq<Conflict>)
    requires spA.deltaT > 0.0 && spB.deltaT > 0.0
    requires ma == ComputeKnots(spA, start, finish) && mb == ComputeKnots(spB, start, finish)
    ensures found == Report(FilteredMeet(narrow, sqrt, sa, spA, sb, spB, start, finish), w, start, finish)
  {
    found := [];
    if Overlap(ShapeBox(spA, sqrt, sa), ShapeBox(spB, sqrt, sb)) {
      var collision := narrow(sa.value, ma, sb.value, mb);
      if collision.Some? {
        found := [Conflict(w.i, w.j, ComputeTime(collision.value, start, finish))];
      }
    }
  }

  function FirstTime(conflicts: seq<Conflict>): Option<Time> {
    if conflicts == [] then None else Some(conflicts[0].time)
  }

  /**
   The sweep with the box filter, in collecting or in early-return mode.  It reports exactly the
   contacts the filter lets through, or the time of the first of them, and where the boxes enclose
   their segments exactly the contacts there are.
   */
  method DetectInvasion(narrow: NarrowPhase, sqrt: real -> real, pa: Profile, a: seq<Waypoint>,
                        pb: Profile, b: seq<Waypoint>, first: Window, collect: bool)
    returns (r: Option<Time>, output: seq<Conflict>)
    requires InOrder(a) && InOrder(b) && first.i > 0 && first.j > 0
    requires first.i < |a| && first.j < |b| ==> SharedSegments(a, b, first)
    ensures r == FirstTime(SweepConflicts(FilteredTest(narrow, sqrt), pa, a, pb, b, first))
    ensures collect ==> output == SweepConflicts(FilteredTest(narrow, sqrt), pa, a, pb, b, first)
    ensures forall c :: c in output ==> FoundFrom(c, narrow, pa, a, pb, b, first)
    ensures r.Some? ==> exists c: Conflict :: FoundFrom(c, narrow, pa, a, pb, b, first) && c.time == r.value
    ensures FilterIsSound(narrow, sqrt, a, b) ==>
      && r == FirstTime(SweepConflicts(NarrowTest(narrow), pa, a, pb, b, first))
      && (collect ==> output == SweepConflicts(NarrowTest(narrow), pa, a, pb, b, first))
  {
    ghost var report := Reporter(FilteredTest(narrow, sqrt), pa, a, pb, b);
    assert Reports(report, FilteredTest(narrow, sqrt), pa, a, pb, b);
    r, output := Sweep(narrow, sqrt, pa, a, pb, b, first, collect, report);
    ghost var all := SweepConflicts(FilteredTest(narrow, sqrt), pa, a, pb, b, first);
    forall c | c in all ensures FoundFrom(c, narrow, pa, a, pb, b, first) {
      SweepExplained(narrow, sqrt, pa, a, pb, b, first, c);
    }
    assert r.Some? ==> all[0] in all;
    if FilterIsSound(narrow, sqrt, a, b) {
      SoundSweep(narrow, sqrt, pa, a, pb, b, first);
    }
  }

  ghost predicate Visited(w: Window) { true }

  /** `report` gives the conflicts of every window that is visited. */
  ghost predicate Reports(report: Window -> seq<Conflict>, test: Test,
                          pa: Profile, a: seq<Waypoint>, pb: Profile, b: seq<Waypoint>)
    requires InOrder(a) && InOrder(b)
  {
    forall w {:trigger Visited(w)} :: Visited(w) && 0 < w.i < |a| && 0 < w.j < |b| ==>
      report(w) == WindowConflicts(test, pa, a, pb, b, w)
  }

  method Sweep(narrow: NarrowPhase, sqrt: real -> real, pa: Profile, a: seq<Waypoint>, pb: Profile, b: seq<Waypoint>,
               first: Window, collect: bool, ghost report: Window -> seq<Conflict>)
    returns (r: Option<Time>, output: seq<Conflict>)
    requires InOrder(a) && InOrder(b) && first.i > 0 && first.j > 0
    requires first.i < |a| && first.j < |b| ==> SharedSegments(a, b, first)
    requires Reports(report, FilteredTest(narrow, sqrt), pa, a, pb, b)
    ensures r == FirstTime(Collected(report, a, b, first))
    ensures output == if collect then Collected(report, a, b, first) else []
  {
    output := [];
    var w := first;
    var splineA: Option<Spline>, splineB: Option<Spline> := None, None;
    ghost var all := Collected(report, a, b, first);
    while w.i < |a| && w.j < |b|
      invariant w.i > 0 && w.j > 0
      invariant w.i < |a| && w.j < |b| ==> SharedSegments(a, b, w)
      invariant splineA.Some? ==> w.i < |a| && splineA.value == MakeSpline(a[w.i - 1], a[w.i])
      invariant splineB.Some? ==> w.j < |b| && splineB.value == MakeSpline(b[w.j - 1], b[w.j])
      invariant all == output + Collected(report, a, b, w)
      invariant !collect ==> output == []
      decreases |a| + |b| - w.i - w.j
    {
      var found, spA, spB := VisitWindow(narrow, sqrt, pa, a, pb, b, w, splineA, splineB, report);
      if !collect && found != [] {
        return Some(found[0].time), output;
      }
      AddWindow(report, a, b, w, output);
      output := output + found;
      w, splineA, splineB := Advance(a, b, w, spA, spB);
    }
    r := FirstTime(output);
  }

  lemma {:induction false} AddWindow(report: Window -> seq<Conflict>, a: seq<Waypoint>, b: seq<Waypoint>, w: Window,
                                     sofar: seq<Conflict>)
    requires w.i < |a| && w.j < |b|
    ensures sofar + Collected(report, a, b, w) == (sofar + report(w)) + Collected(report, a, b, NextWindow(a, b, w))
  {
  }

  /** Builds the splines that are missing and tests the window. */
  method VisitWindow(narrow: NarrowPhase, sqrt: real -> real, pa: Profile, a: seq<Waypoint>,
                     pb: Profile, b: seq<Waypoint>, w: Window, splineA: Option<Spline>, splineB: Option<Spline>,
                     ghost report: Window -> seq<Conflict>)
    returns (found: seq<Conflict>, spA: Spline, spB: Spline)
    requires InOrder(a) && InOrder(b) && SharedSegments(a, b, w)
    requires splineA.Some? ==> splineA.value == MakeSpline(a[w.i - 1], a[w.i])
    requires splineB.Some? ==> splineB.value == MakeSpline(b[w.j - 1], b[w.j])
    requires Reports(report, FilteredTest(narrow, sqrt), pa, a, pb, b)
    ensures spA == MakeSpline(a[w.i - 1], a[w.i]) && spB == MakeSpline(b[w.j - 1], b[w.j])
    ensures found == report(w)
  {
    assert Visited(w);
    spA := CurrentSpline(a, w.i, splineA);
    spB := CurrentSpline(b, w.j, splineB);
    found := ScanSegments(narrow, sqrt, pa, a, spA, pb, b, spB, w);
  }

  method ScanSegments(narrow: NarrowPhase, sqrt: real -> real, pa: Profile, ghost a: seq<Waypoint>, spA: Spline,
                      pb: Profile, ghost b: seq<Waypoint>, spB: Spline, w: Window) returns (found: seq<Conflict>)
    requires InOrder(a) && InOrder(b) && SharedSegments(a, b, w)
    requires spA == MakeSpline(a[w.i - 1], a[w.i]) && spB == MakeSpline(b[w.j - 1], b[w.j])
    ensures found == WindowConflicts(FilteredTest(narrow, sqrt), pa, a, pb, b, w)
  {
    found := ScanWindow(narrow, sqrt, pa, spA, pb, spB, w);
    WindowOfSplines(FilteredTest(narrow, sqrt), pa, a, spA, pb, b, spB, w);
  }

  /** The cached spline of a segment, or a new one. */
  method CurrentSpline(ws: seq<Waypoint>, k: nat, cached: Option<Spline>) returns (sp: Spline)
    requires InOrder(ws) && 0 < k < |ws| && (cached.Some? ==> cached.value == MakeSpline(ws[k - 1], ws[k]))
    ensures sp == MakeSpline(ws[k - 1], ws[k])
  {
    sp := if cached.Some? then cached.value else MakeSpline(ws[k - 1], ws[k]);
  }

  lemma {:induction false} WindowReady(ws: seq<Waypoint>, sqrt: real -> real, k: nat, sp: Spline)
    requires InOrder(ws) && 0 < k < |ws| && SegmentBoxEncloses(ws, sqrt, k) && sp == MakeSpline(ws[k - 1], ws[k])
    ensures sp.Valid() && sp.deltaT > 0.0 && BoxEncloses(sp, sqrt)
    ensures sp.start == ws[k - 1].time && sp.finish == ws[k].time
  {
  }

  /** Drops the spline that finishes first and moves its iterator. */
  method Advance(a: seq<Waypoint>, b: seq<Waypoint>, w: Window, spA: Spline, spB: Spline)
    returns (n: Window, splineA: Option<Spline>, splineB: Option<Spline>)
    requires InOrder(a) && InOrder(b) && SharedSegments(a, b, w)
    requires spA == MakeSpline(a[w.i - 1], a[w.i]) && spB == MakeSpline(b[w.j - 1], b[w.j])
    ensures n == NextWindow(a, b, w)
    ensures n.i < |a| && n.j < |b| ==> SharedSegments(a, b, n)
    ensures splineA.Some? ==> n.i == w.i && splineA.value == spA
    ensures splineB.Some? ==> n.j == w.j && splineB.value == spB
  {
    NextShares(a, b, w);
    n, splineA, splineB := w, Some(spA), Some(spB);
    if spA.finish < spB.finish {
      n, splineA := Window(w.i + 1, w.j), None;
    } else if spB.finish < spA.finish {
      n, splineB := Window(w.i, w.j + 1), None;
    } else {
      n, splineA, splineB := Window(w.i + 1, w.j + 1), None, None;
    }
  }

  /** One iteration: the two guarded tests of a window. */
  method ScanWindow(narrow: NarrowPhase, sqrt: real -> real, pa: Profile, spA: Spline,
                    pb: Profile, spB: Spline, w: Window)
    returns (found: seq<Conflict>)
    requires spA.deltaT > 0.0 && spB.deltaT > 0.0
    ensures found == SegmentConflicts(FilteredTest(narrow, sqrt), pa, spA, pb, spB, w)
  {
    var start, finish := MaxTime(spA.start, spB.start), MinTime(spA.finish, spB.finish);
    var ma, mb := ComputeKnots(spA, start, finish), ComputeKnots(spB, start, finish);
    found := FilteredReport(narrow, sqrt, pa.footprint, spA, ma, pb.vicinity, spB, mb, w, start, finish);
    if TestComplement(pa, pb) {
      var more := FilteredReport(narrow, sqrt, pa.vicinity, spA, ma, pb.footprint, spB, mb, w, start, finish);
      found := found + more;
    }
  }

  /** Where both trajectories are entered, looked up by time. */
  method GetInitialIterators(a: seq<Waypoint>, b: seq<Waypoint>) returns (w: Window)
    requires InOrder(a) && InOrder(b) && |a| >= 2 && |b| >= 2
    ensures w == InitialWindow(a, b)
  {
    if a[0].time < b[0].time {
      var i := FindTime(a, b[0].time);
      w := Window(i, 1);
    } else if b[0].time < a[0].time {
      var j := FindTime(b, a[0].time);
      w := Window(1, j);
    } else {
      w := Window(1, 1);
    }
  }

  method FindTime(ws: seq<Waypoint>, t: Time) returns (k: nat)
    requires InOrder(ws)
    ensures k == LowerIndex(ws, t)
  {
    k := 0;
    while k < |ws| && ws[k].time < t
      invariant k <= |ws|
      invariant forall n :: 0 <= n < k ==> ws[n].time < t
    {
      k := k + 1;
    }
    LowerIndexIs(ws, t, k);
  }

  // ---------------------------------------------------------------- vehicles that start close together

  /** `MissingShape`: the source dereferences a missing shape. */
  datatype Closeness = Apart | Close | MissingShape

  function PairCloseness(test: StaticTest, sa: Option<Shape>, p: Vec3, sb: Option<Shape>, q: Vec3): Closeness {
    if sa.None? || sb.None? then MissingShape else if test(sa.value, p, sb.value, q) then Close else Apart
  }

  /** Is either vehicle inside the vicinity of the other at a time?  The second pair comes only after the first. */
  function CheckOverlap(test: StaticTest, pa: Profile, spA: Spline, pb: Profile, spB: Spline, t: Time): Closeness
    requires spA.deltaT > 0.0 && spB.deltaT > 0.0
  {
    var p, q := spA.Position(t as real), spB.Position(t as real);
    var first := PairCloseness(test, pa.footprint, p, pb.vicinity, q);
    if first != Apart then first else PairCloseness(test, pa.vicinity, p, pb.footprint, q)
  }

  /** At the moment both vehicles are first on their way. */
  function CloseStart(test: StaticTest, pa: Profile, a: seq<Waypoint>, pb: Profile, b: seq<Waypoint>, w: Window)
    : Closeness
    requires InOrder(a) && InOrder(b) && 0 < w.i < |a| && 0 < w.j < |b|
  {
    var spA, spB := MakeSpline(a[w.i - 1], a[w.i]), MakeSpline(b[w.j - 1], b[w.j]);
    CheckOverlap(test, pa, spA, pb, spB, MaxTime(spA.start, spB.start))
  }

  /** Both vehicles have a body, at least one a footprint, and both trajectories cover some moment. */
  predicate Comparable(pa: Profile, a: seq<Waypoint>, pb: Profile, b: seq<Waypoint>)
    requires a != [] && b != []
  {
    (pa.footprint.Some? || pb.footprint.Some?) && pa.vicinity.Some? && pb.vicinity.Some? && HaveTimeOverlap(a, b)
  }

  ghost function ClosenessAtStart(test: StaticTest, pa: Profile, a: seq<Waypoint>, pb: Profile, b: seq<Waypoint>)
    : Closeness
    requires InOrder(a) && InOrder(b) && |a| >= 2 && |b| >= 2 && HaveTimeOverlap(a, b)
  {
    InitialShares(a, b);
    CloseStart(test, pa, a, pb, b, InitialWindow(a, b))
  }

  /** The start is judged where both vehicles are at the later of the two start times. */
  lemma {:induction false} ClosenessMeans(test: StaticTest, pa: Profile, a: seq<Waypoint>, pb: Profile,
                                          b: seq<Waypoint>)
    requires InOrder(a) && InOrder(b) && |a| >= 2 && |b| >= 2 && HaveTimeOverlap(a, b)
    requires pa.footprint.Some? && pb.footprint.Some? && pa.vicinity.Some? && pb.vicinity.Some?
    ensures SharedSegments(a, b, InitialWindow(a, b)) &&
      var w, t := InitialWindow(a, b), MaxTime(a[0].time, b[0].time) as real;
      var p := MakeSpline(a[w.i - 1], a[w.i]).Position(t);
      var q := MakeSpline(b[w.j - 1], b[w.j]).Position(t);
      ClosenessAtStart(test, pa, a, pb, b)
      == if test(pa.footprint.value, p, pb.vicinity.value, q) || test(pa.vicinity.value, p, pb.footprint.value, q)
         then Close else Apart
  {
    InitialShares(a, b);
  }

  // ---------------------------------------------------------------- the whole check

  /** `StartsClose` hands the pair over to the approach detection. */
  datatype Verdict = InvalidTrajectory(size: nat) | Clear | ConflictAt(time: Time) | StartsClose | NullShape

  /** Some window of the common time has a contact. */
  ghost predicate SomeTouch(test: Test, pa: Profile, a: seq<Waypoint>, pb: Profile, b: seq<Waypoint>)
    requires InOrder(a) && InOrder(b) && |a| >= 2 && |b| >= 2
  {
    exists w :: w in Windows(a, b, InitialWindow(a, b)) && Touches(test, pa, a, pb, b, w)
  }

  /** What the check answers, from the shapes, the start and the contacts alone. */
  ghost predicate RightVerdict(v: Verdict, test: Test, poses: StaticTest, pa: Profile, a: seq<Waypoint>,
                               pb: Profile, b: seq<Waypoint>)
    requires InOrder(a) && InOrder(b) && |a| >= 2 && |b| >= 2
  {
    if !Comparable(pa, a, pb, b) then v == Clear
    else
      match ClosenessAtStart(poses, pa, a, pb, b)
      case MissingShape => v == NullShape
      case Close => v == StartsClose
      case Apart => RightSweepVerdict(v, test, pa, a, pb, b)
  }

  /** A conflict exactly when some window has a contact, at the time of the first in the order of the sweep. */
  ghost predicate RightSweepVerdict(v: Verdict, test: Test, pa: Profile, a: seq<Waypoint>,
                                    pb: Profile, b: seq<Waypoint>)
    requires InOrder(a) && InOrder(b) && |a| >= 2 && |b| >= 2
  {
    && (if SomeTouch(test, pa, a, pb, b) then v.ConflictAt? else v == Clear)
    && (v.ConflictAt? ==>
      var all := SweepConflicts(test, pa, a, pb, b, InitialWindow(a, b));
      all != [] && v.time == all[0].time)
  }

  /**
   The whole check.  For every pair of trajectories the verdict is right for the contacts that the
   box filter lets through; where the boxes enclose their segments it is right for all contacts.
   */
  method InvasionBetween(narrow: NarrowPhase, poses: StaticTest, sqrt: real -> real, inputA: Profile, a: seq<Waypoint>,
                         inputB: Profile, b: seq<Waypoint>) returns (v: Verdict)
    requires InOrder(a) && InOrder(b)
    ensures v.InvalidTrajectory? <==> |a| < 2 || |b| < 2
    ensures |a| >= 2 && |b| >= 2 ==>
      var pa, pb := ConvertProfile(inputA), ConvertProfile(inputB);
      && RightVerdict(v, FilteredTest(narrow, sqrt), poses, pa, a, pb, b)
      && (v.ConflictAt? ==>
        exists c: Conflict :: FoundFrom(c, narrow, pa, a, pb, b, InitialWindow(a, b)) && c.time == v.time)
      && (FilterIsSound(narrow, sqrt, a, b) ==> RightVerdict(v, NarrowTest(narrow), poses, pa, a, pb, b))
  {
    if |a| < 2 { return InvalidTrajectory(|a|); }
    if |b| < 2 { return InvalidTrajectory(|b|); }
    var pa, pb := ConvertProfile(inputA), ConvertProfile(inputB);
    if pa.footprint.None? && pb.footprint.None? { return Clear; }
    if pa.vicinity.None? || pb.vicinity.None? { return Clear; }
    if !HaveTimeOverlap(a, b) { return Clear; }
    var w := GetInitialIterators(a, b);
    InitialShares(a, b);
    match CloseStart(poses, pa, a, pb, b, w) {
      case MissingShape => return NullShape;
      case Close => return StartsClose;
      case Apart => v := SweepVerdict(narrow, sqrt, pa, a, pb, b, w);
    }
  }

  method SweepVerdict(narrow: NarrowPhase, sqrt: real -> real, pa: Profile, a: seq<Waypoint>,
                      pb: Profile, b: seq<Waypoint>, w: Window) returns (v: Verdict)
    requires InOrder(a) && InOrder(b) && |a| >= 2 && |b| >= 2 && w == InitialWindow(a, b) && SharedSegments(a, b, w)
    ensures RightSweepVerdict(v, FilteredTest(narrow, sqrt), pa, a, pb, b)
    ensures FilterIsSound(narrow, sqrt, a, b) ==> RightSweepVerdict(v, NarrowTest(narrow), pa, a, pb, b)
    ensures v.ConflictAt? ==> exists c: Conflict :: FoundFrom(c, narrow, pa, a, pb, b, w) && c.time == v.time
  {
    var r, _ := DetectInvasion(narrow, sqrt, pa, a, pb, b, w, false);
    NoConflictMeansNoTouch(FilteredTest(narrow, sqrt), pa, a, pb, b, w);
    NoConflictMeansNoTouch(NarrowTest(narrow), pa, a, pb, b, w);
    v := if r.Some? then ConflictAt(r.value) else Clear;
  }

  /** A vehicle without a footprint never gets as far as the sweep. */
  lemma {:induction false} SweepNeedsFootprints(test: StaticTest, pa: Profile, a: seq<Waypoint>, pb: Profile,
                                                b: seq<Waypoint>)
    requires InOrder(a) && InOrder(b) && |a| >= 2 && |b| >= 2 && HaveTimeOverlap(a, b)
    ensures ClosenessAtStart(test, pa, a, pb, b) == Apart ==> pa.footprint.Some? && pb.footprint.Some?
    ensures pa.footprint.None? ==> ClosenessAtStart(test, pa, a, pb, b) == MissingShape
  {
    InitialShares(a, b);
  }

  // ---------------------------------------------------------------- trajectories without tolerance branches

  ghost predicate AllExact(ws: seq<Waypoint>)
    requires InOrder(ws)
  {
    forall k :: 0 < k < |ws| ==> ExactSegment(ws, k)
  }

  ghost predicate ExactSegment(ws: seq<Waypoint>, k: nat)
    requires InOrder(ws) && 0 < k < |ws|
  {
    ExactBox(MakeSpline(ws[k - 1], ws[k]))
  }

  lemma {:induction false} ExactTrajectoryEncloses(ws: seq<Waypoint>, sqrt: real -> real)
    requires InOrder(ws) && IsSqrt(sqrt) && AllExact(ws)
    ensures AllBoxesEnclose(ws, sqrt)
  {
    forall k | 0 < k < |ws| ensures SegmentBoxEncloses(ws, sqrt, k) {
      assert ExactSegment(ws, k);
      ExactBoxEncloses(MakeSpline(ws[k - 1], ws[k]), sqrt);
    }
  }

  /** When all segments are in the exact branches, the filtered sweep finds none exactly when there is none. */
  method DetectExactInvasion(narrow: NarrowPhase, sqrt: real -> real, pa: Profile, a: seq<Waypoint>,
                             pb: Profile, b: seq<Waypoint>, first: Window) returns (r: Option<Time>)
    requires InOrder(a) && InOrder(b) && first.i > 0 && first.j > 0
    requires first.i < |a| && first.j < |b| ==> SharedSegments(a, b, first)
    requires ContactIsClose(narrow) && IsSqrt(sqrt) && AllExact(a) && AllExact(b)
    ensures r.None? <==> forall w :: w in Windows(a, b, first) ==> !Touches(NarrowTest(narrow), pa, a, pb, b, w)
  {
    ExactTrajectoryEncloses(a, sqrt);
    ExactTrajectoryEncloses(b, sqrt);
    var output;
    r, output := DetectInvasion(narrow, sqrt, pa, a, pb, b, first, false);
    NoConflictMeansNoTouch(NarrowTest(narrow), pa, a, pb, b, first);
  }
}
