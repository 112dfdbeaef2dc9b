/**
 Motion along a trajectory: one spline per pair of consecutive waypoints, looked
 up by finish time, and trajectories that start in the middle of a segment.
 */
module Motions {
  import opened OrderMaps
  import opened Waypoints
  import opened Splines
  import opened Trajectories

  datatype Motion =
    | InvalidRange
    | SinglePoint(at: Waypoint)
    | OneSpline(spline: Spline)
    | Piecewise(splines: seq<Spline>)

  ghost predicate ValidMotion(m: Motion) {
    match m
    case InvalidRange => false
    case SinglePoint(_) => true
    case OneSpline(s) => s.deltaT > 0.0
    case Piecewise(ss) => ss != [] && forall i :: 0 <= i < |ss| ==> ss[i].deltaT > 0.0
  }

  /** The segments of a waypoint list, each filed under its finish time. */
  ghost function Segments(ws: seq<Waypoint>): (r: seq<Spline>)
    requires InOrder(ws) && |ws| >= 1
    ensures |r| == |ws| - 1
    ensures forall i :: 0 <= i < |r| ==> r[i] == MakeSpline(ws[i], ws[i + 1])
  {
    seq(|ws| - 1, i requires 0 <= i < |ws| - 1 => MakeSpline(ws[i], ws[i + 1]))
  }

  /** First spline that finishes at or after `t`; the last one if there is none. */
  function Lookup(splines: seq<Spline>, t: real): (i: nat)
    requires splines != []
    ensures i < |splines|
  {
    if |splines| == 1 || t <= splines[0].finish as real then 0 else 1 + Lookup(splines[1..], t)
  }

  function Position(m: Motion, t: real): Vec3
    requires ValidMotion(m)
  {
    match m
    case SinglePoint(at) => at.position
    case OneSpline(s) => s.Position(t)
    case Piecewise(ss) => ss[Lookup(ss, t)].Position(t)
  }

  function Velocity(m: Motion, t: real): Vec3
    requires ValidMotion(m)
  {
    match m
    case SinglePoint(at) => at.velocity
    case OneSpline(s) => s.Velocity(t)
    case Piecewise(ss) => ss[Lookup(ss, t)].Velocity(t)
  }

  method ComputeCubicSplines(ws: seq<Waypoint>) returns (m: Motion)
    requires InOrder(ws)
    ensures m == MotionOf(ws)
  {
    if ws == [] {
      return InvalidRange;
    }
    if |ws| == 1 {
      return SinglePoint(ws[0]);
    }
    var splines := [];
    for i := 1 to |ws|
      invariant splines == Segments(ws)[..i - 1]
    {
      splines := splines + [MakeSpline(ws[i - 1], ws[i])];
    }
    assert splines == Segments(ws);
    if |splines| == 1 {
      return OneSpline(splines[0]);
    }
    m := Piecewise(splines);
  }

  ghost function MotionOf(ws: seq<Waypoint>): Motion
    requires InOrder(ws)
  {
    if ws == [] then InvalidRange
    else if |ws| == 1 then SinglePoint(ws[0])
    else if |ws| == 2 then OneSpline(Segments(ws)[0])
    else Piecewise(Segments(ws))
  }

  // ---------------------------------------------------------------- the state at a time

  ghost predicate Covers(ws: seq<Waypoint>, t: real) {
    ws != [] && ws[0].time as real <= t <= ws[|ws| - 1].time as real
  }

  ghost predicate Within(ws: seq<Waypoint>, j: int, t: real) {
    0 <= j < |ws| - 1 && ws[j].time as real <= t <= ws[j + 1].time as real
  }

  /** Position and velocity of the motion at a time. */
  ghost function StateAt(ws: seq<Waypoint>, t: real): (Vec3, Vec3)
    requires InOrder(ws) && ws != []
  {
    (Position(MotionOf(ws), t), Velocity(MotionOf(ws), t))
  }

  /** Position and velocity at a time on the segment between two waypoints. */
  ghost function SegmentState(a: Waypoint, b: Waypoint, t: real): (Vec3, Vec3)
    requires a.time < b.time
  {
    (MakeSpline(a, b).Position(t), MakeSpline(a, b).Velocity(t))
  }

  lemma SegmentStateEnds(a: Waypoint, b: Waypoint)
    requires a.time < b.time
    ensures SegmentState(a, b, a.time as real) == a.State()
    ensures SegmentState(a, b, b.time as real) == b.State()
  {
    SegmentEnds(a, b);
  }

  /** A segment between a sample of a segment and that segment's end is the same motion. */
  lemma SegmentStateCut(a: Waypoint, b: Waypoint, start: Time, first: Waypoint, t: real)
    requires a.time <= start < b.time && first == MakeSpline(a, b).Sample(start)
    ensures SegmentState(first, b, t) == SegmentState(a, b, t)
  {
    var sp := MakeSpline(a, b);
    SegmentEnds(a, b);
    Resample(sp, start, b.time, t);
  }

  /** The lookup finds the segment whose half-open interval contains the time. */
  lemma {:induction false} LookupFinds(splines: seq<Spline>, t: real, j: nat)
    requires j < |splines|
    requires forall i :: 0 <= i < j ==> (splines[i].finish as real) < t
    requires t <= splines[j].finish as real
    ensures Lookup(splines, t) == j
    decreases j
  {
    if j > 0 {
      LookupFinds(splines[1..], t, j - 1);
    }
  }

  lemma {:induction false} InOrderAt(ws: seq<Waypoint>, i: nat, j: nat)
    requires InOrder(ws) && i < j < |ws|
    ensures (ws[i].time as real) < ws[j].time as real
  {
  }

  /** After the waypoint `j` and up to the next one, the motion is segment `j`. */
  lemma {:induction false} StateInside(ws: seq<Waypoint>, j: nat, t: real)
    requires InOrder(ws) && j < |ws| - 1
    requires (ws[j].time as real) < t || j == 0
    requires t <= ws[j + 1].time as real
    ensures StateAt(ws, t) == SegmentState(ws[j], ws[j + 1], t)
  {
    if |ws| > 2 {
      SegmentFound(ws, j, t);
      assert Segments(ws)[j] == MakeSpline(ws[j], ws[j + 1]);
    }
  }

  lemma {:induction false} SegmentFound(ws: seq<Waypoint>, j: nat, t: real)
    requires InOrder(ws) && j < |ws| - 1
    requires (ws[j].time as real) < t || j == 0
    requires t <= ws[j + 1].time as real
    ensures Lookup(Segments(ws), t) == j
  {
    var ss := Segments(ws);
    forall i | 0 <= i < j ensures (ss[i].finish as real) < t {
      if i + 1 < j { InOrderAt(ws, i + 1, j); }
    }
    LookupFinds(ss, t, j);
  }

  /** At a waypoint the motion has the waypoint's own position and velocity. */
  lemma {:induction false} StateAtWaypoint(ws: seq<Waypoint>, j: nat)
    requires InOrder(ws) && j < |ws|
    ensures StateAt(ws, ws[j].time as real) == ws[j].State()
  {
    if j > 0 {
      InOrderAt(ws, j - 1, j);
      SegmentStateEnds(ws[j - 1], ws[j]);
      StateInside(ws, j - 1, ws[j].time as real);
    } else if |ws| > 1 {
      InOrderAt(ws, 0, 1);
      SegmentStateEnds(ws[0], ws[1]);
      StateInside(ws, 0, ws[0].time as real);
    }
  }

  /** On a closed segment the motion is that segment, whichever neighbour the lookup picks. */
  lemma {:induction false} StateOnSegment(ws: seq<Waypoint>, j: nat, t: real)
    requires InOrder(ws) && Within(ws, j, t)
    ensures StateAt(ws, t) == SegmentState(ws[j], ws[j + 1], t)
  {
    if t == ws[j].time as real {
      StateAtWaypoint(ws, j);
      SegmentStateEnds(ws[j], ws[j + 1]);
    } else {
      StateInside(ws, j, t);
    }
  }

  lemma {:induction false} FindSegment(ws: seq<Waypoint>, t: real) returns (j: nat)
    requires InOrder(ws) && |ws| >= 2 && Covers(ws, t)
    ensures Within(ws, j, t)
    decreases |ws|
  {
    if t <= ws[1].time as real {
      j := 0;
    } else {
      j := FindSegment(ws[1..], t);
      j := j + 1;
    }
  }

  // ---------------------------------------------------------------- slicing

  /** The part of a trajectory from `start` on, where `start` lies in the segment ending at `k`. */
  ghost function Sliced(ws: seq<Waypoint>, k: nat, start: Time): seq<Waypoint>
    requires InOrder(ws) && 0 < k < |ws| && ws[k - 1].time <= start <= ws[k].time
  {
    var first := MakeSpline(ws[k - 1], ws[k]).Sample(start);
    if start == ws[k].time then [first] + ws[k + 1..] else [first] + ws[k..]
  }

  /** Builds the slice by inserting a sample and then every remaining waypoint. */
  method SliceTrajectory(start: Time, spline: Spline, ws: seq<Waypoint>, k: nat) returns (output: Trajectory)
    requires InOrder(ws) && 0 < k < |ws| && ws[k - 1].time <= start <= ws[k].time
    requires spline == MakeSpline(ws[k - 1], ws[k])
    ensures fresh(output) && output.Valid()
    ensures output.View() == Sliced(ws, k, start)
  {
    output := new Trajectory();
    var first := spline.Sample(start);
    var at, inserted := output.Insert(first);
    assert output.View() == [first];
    InsertRest(output, first, ws, k);
  }

  method InsertRest(output: Trajectory, ghost first: Waypoint, ws: seq<Waypoint>, k: nat)
    requires InOrder(ws) && k < |ws| && first.time <= ws[k].time
    requires output.Valid() && output.View() == [first]
    modifies output, output.ordering
    ensures output.Valid()
    ensures output.View() == SliceSoFar(first, ws, k, |ws|)
  {
    for i := k to |ws|
      invariant output.Valid()
      invariant output.View() == SliceSoFar(first, ws, k, i)
    {
      AppendNext(first, ws, k, i);
      var at, inserted := output.Insert(ws[i]);
    }
  }

  /** The slice once the waypoints before `i` have been inserted. */
  ghost function SliceSoFar(first: Waypoint, ws: seq<Waypoint>, k: nat, i: nat): seq<Waypoint>
    requires k < |ws| && k <= i <= |ws|
  {
    if i == k then [first]
    else if first.time == ws[k].time then [first] + ws[k + 1..i]
    else [first] + ws[k..i]
  }

  /** Inserting the next waypoint appends it, or drops it when it repeats the start time. */
  lemma {:induction false} AppendNext(first: Waypoint, ws: seq<Waypoint>, k: nat, i: nat)
    requires InOrder(ws) && k <= i < |ws| && first.time <= ws[k].time
    ensures Inserted(SliceSoFar(first, ws, k, i), ws[i]) == SliceSoFar(first, ws, k, i + 1)
  {
    var sofar := SliceSoFar(first, ws, k, i);
    if i == k && first.time == ws[k].time {
      LowerIndexIs(sofar, ws[i].time, 0);
    } else {
      AllEarlier(first, ws, k, i);
      LowerIndexIs(sofar, ws[i].time, |sofar|);
      assert sofar[..|sofar|] + [ws[i]] + sofar[|sofar|..] == sofar + [ws[i]];
    }
  }

  lemma {:induction false} AllEarlier(first: Waypoint, ws: seq<Waypoint>, k: nat, i: nat)
    requires InOrder(ws) && k <= i < |ws| && first.time <= ws[k].time && !(i == k && first.time == ws[k].time)
    ensures var sofar := SliceSoFar(first, ws, k, i); forall n :: 0 <= n < |sofar| ==> sofar[n].time < ws[i].time
  {
    var sofar, from := SliceSoFar(first, ws, k, i), if first.time == ws[k].time then k + 1 else k;
    forall n | 0 <= n < |sofar| ensures sofar[n].time < ws[i].time {
      if n > 0 { assert sofar[n] == ws[from + n - 1]; }
    }
  }

  /** Slicing preserves motion: same position and velocity at every time from the start on. */
  lemma {:induction false} SlicePreservesMotion(ws: seq<Waypoint>, k: nat, start: Time, t: real)
    requires InOrder(ws) && 0 < k < |ws| && ws[k - 1].time <= start <= ws[k].time
    requires start as real <= t <= ws[|ws| - 1].time as real
    ensures InOrder(Sliced(ws, k, start)) && Covers(Sliced(ws, k, start), t)
    ensures StateAt(Sliced(ws, k, start), t) == StateAt(ws, t)
  {
    if start == ws[k].time {
      SegmentEnds(ws[k - 1], ws[k]);
      assert Sliced(ws, k, start) == ws[k..];
      SuffixMotion(ws, k, t);
    } else {
      var first := MakeSpline(ws[k - 1], ws[k]).Sample(start);
      CutMotion(ws, k, start, first, t);
    }
  }

  /** The rest of a list from a waypoint on has the same motion. */
  lemma {:induction false} SuffixMotion(ws: seq<Waypoint>, k: nat, t: real)
    requires InOrder(ws) && k < |ws|
    requires ws[k].time as real <= t <= ws[|ws| - 1].time as real
    ensures InOrder(ws[k..]) && Covers(ws[k..], t)
    ensures StateAt(ws[k..], t) == StateAt(ws, t)
  {
    var rest := ws[k..];
    SuffixInOrder(ws, k);
    if k + 1 == |ws| {
      assert rest == [ws[k]] && t == ws[k].time as real;
      StateAtWaypoint(ws, k);
      StateAtWaypoint(rest, 0);
    } else {
      var j := FindSegment(rest, t);
      StateOnSegment(rest, j, t);
      assert rest[j] == ws[k + j] && rest[j + 1] == ws[k + j + 1];
      StateOnSegment(ws, k + j, t);
    }
  }

  lemma {:induction false} SuffixInOrder(ws: seq<Waypoint>, k: nat)
    requires InOrder(ws) && k <= |ws|
    ensures InOrder(ws[k..])
  {
  }

  lemma {:induction false} CutMotion(ws: seq<Waypoint>, k: nat, start: Time, first: Waypoint, t: real)
    requires InOrder(ws) && 0 < k < |ws| && ws[k - 1].time <= start < ws[k].time
    requires first == MakeSpline(ws[k - 1], ws[k]).Sample(start)
    requires start as real <= t <= ws[|ws| - 1].time as real
    ensures var cut := [first] + ws[k..];
            InOrder(cut) && Covers(cut, t) && StateAt(cut, t) == StateAt(ws, t)
  {
    var cut := [first] + ws[k..];
    PrependInOrder(first, ws, k);
    var j := FindSegment(cut, t);
    StateOnSegment(cut, j, t);
    CutSegment(ws, k, start, first, t, j);
    StateOnSegment(ws, k + j - 1, t);
  }

  /** Each segment of the cut list moves like the segment of the original at the same time. */
  lemma {:induction false} CutSegment(ws: seq<Waypoint>, k: nat, start: Time, first: Waypoint, t: real, j: nat)
    requires InOrder(ws) && 0 < k < |ws| && ws[k - 1].time <= start < ws[k].time
    requires first == MakeSpline(ws[k - 1], ws[k]).Sample(start)
    requires Within([first] + ws[k..], j, t)
    ensures Within(ws, k + j - 1, t)
    ensures var cut := [first] + ws[k..];
      cut[j].time < cut[j + 1].time && SegmentState(cut[j], cut[j + 1], t) == SegmentState(ws[k + j - 1], ws[k + j], t)
  {
    var cut := [first] + ws[k..];
    if j == 0 {
      SegmentStateCut(ws[k - 1], ws[k], start, first, t);
    } else {
      assert cut[j] == ws[k + j - 1] && cut[j + 1] == ws[k + j];
    }
  }

  lemma {:induction false} PrependInOrder(first: Waypoint, ws: seq<Waypoint>, k: nat)
    requires InOrder(ws) && k < |ws| && first.time < ws[k].time
    ensures InOrder([first] + ws[k..])
  {
    var cut := [first] + ws[k..];
    forall i, j | 0 <= i < j < |cut| ensures cut[i].time < cut[j].time {
      assert cut[j] == ws[k + j - 1];
      if i > 0 { assert cut[i] == ws[k + i - 1]; }
    }
  }
}
