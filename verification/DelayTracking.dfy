/**
 Delay bookkeeping of the read-only fleet adapter.  Each report of a robot either
 replaces the route on the schedule, delays it, or leaves it alone.  The interpolation of
 a report's path into waypoints is a parameter of the report.
 */
module DelayTracking {
  import opened OrderMaps
  import opened Waypoints
  import opened Trajectories

  const Second: int := 1_000_000_000
  const MaxCumulativeDelay: int := 5 * Second

  datatype Report = Report(path: seq<Vec3>, location: Vec3, time: Time, interpolated: seq<Waypoint>)

  datatype Settings = Settings(delayThreshold: int, yawThreshold: real)

  function Squared(x: real): real { x * x }

  predicate SamePlace(a: Vec3, b: Vec3) {
    Squared(a.x - b.x) + Squared(a.y - b.y) + Squared(a.yaw - b.yaw) <= 0.000_000_000_000_000_1
  }

  predicate StillThere(a: Vec3, b: Vec3, yawThreshold: real) {
    && Squared(a.x - b.x) + Squared(a.y - b.y) <= 0.0025
    && -yawThreshold <= a.yaw - b.yaw <= yawThreshold
  }

  /** The thresholds are distances: a hundred-millionth for path locations and five centimetres on the floor. */
  lemma {:induction false} ThresholdsAreDistances(a: Vec3, b: Vec3, yawThreshold: real, all: real, planar: real)
    requires all >= 0.0 && all * all
      == (a.x - b.x) * (a.x - b.x) + (a.y - b.y) * (a.y - b.y) + (a.yaw - b.yaw) * (a.yaw - b.yaw)
    requires planar >= 0.0 && planar * planar == (a.x - b.x) * (a.x - b.x) + (a.y - b.y) * (a.y - b.y)
    ensures SamePlace(a, b) <==> all <= 0.00000001
    ensures StillThere(a, b, yawThreshold) <==>
      planar <= 0.05 && a.yaw - b.yaw <= yawThreshold && b.yaw - a.yaw <= yawThreshold
  {
    SquaresInOrder(all, 0.00000001);
    SquaresInOrder(planar, 0.05);
  }

  lemma {:induction false} SquaresInOrder(x: real, y: real)
    requires x >= 0.0 && y >= 0.0
    ensures x <= y <==> x * x <= y * y
  {
    if x <= y {
      assert x * x <= x * y && x * y <= y * y;
    } else {
      Positive(x - y, x + y);
      assert (x - y) * (x + y) == x * x - y * y;
    }
  }

  lemma Positive(x: real, y: real)
    requires x > 0.0 && y > 0.0
    ensures x * y > 0.0
  {
  }

  /** A path that interpolates to a single point makes a temporary sitting trajectory. */
  predicate Sits(r: Report) {
    |r.interpolated| < 2
  }

  function Estimate(r: Report): seq<Waypoint> {
    var still := Vec3(0.0, 0.0, 0.0);
    if Sits(r) then
      [Waypoint(r.time, r.location, still), Waypoint(r.time + 10 * Second, r.location, still)]
    else r.interpolated
  }

  function Finish(ws: seq<Waypoint>): Time
    requires ws != []
  {
    ws[|ws| - 1].time
  }

  method MakeTrajectory(r: Report) returns (trajectory: Trajectory, sitting: bool)
    requires InOrder(r.interpolated)
    ensures fresh(trajectory) && fresh(trajectory.ordering) && forall n :: n in trajectory.segments ==> fresh(n)
    ensures trajectory.Valid() && trajectory.View() == Estimate(r) && sitting == Sits(r)
    ensures !sitting ==> trajectory.View() == r.interpolated
    ensures sitting ==>
      var still := Vec3(0.0, 0.0, 0.0);
      trajectory.View() == [Waypoint(r.time, r.location, still), Waypoint(r.time + 10_000_000_000, r.location, still)]
  {
    trajectory := FillTrajectory(Estimate(r));
    sitting := |r.interpolated| < 2;
  }

  method FillTrajectory(ws: seq<Waypoint>) returns (trajectory: Trajectory)
    requires InOrder(ws)
    ensures fresh(trajectory) && fresh(trajectory.ordering) && forall n :: n in trajectory.segments ==> fresh(n)
    ensures trajectory.Valid() && trajectory.View() == ws
  {
    trajectory := new Trajectory();
    for i := 0 to |ws|
      invariant fresh(trajectory) && fresh(trajectory.ordering) && trajectory.Valid()
      invariant forall n :: n in trajectory.segments ==> fresh(n)
      invariant trajectory.View() == ws[..i]
    {
      Append(ws, i);
      InsertNext(trajectory, ws[i]);
    }
  }

  method InsertNext(t: Trajectory, w: Waypoint)
    requires t.Valid()
    modifies t, t.ordering
    ensures t.Valid() && t.View() == Inserted(old(t.View()), w)
    ensures forall n :: n in t.segments ==> n in old(t.segments) || fresh(n)
  {
    var at, inserted := t.Insert(w);
  }

  lemma {:induction false} Append(ws: seq<Waypoint>, i: nat)
    requires InOrder(ws) && i < |ws|
    ensures Inserted(ws[..i], ws[i]) == ws[..i + 1]
  {
    LowerIndexIs(ws[..i], ws[i].time, i);
  }

  // ---------------------------------------------------------------- what a report does

  datatype Entry = Entry(path: seq<Vec3>, route: Option<seq<Waypoint>>, cumulative: int, sitting: bool)

  datatype Publication = Nothing | PushRoute(route: seq<Waypoint>) | PushDelay(delay: int)

  /** A route is replaced, kept, or shifted from one of its waypoints on. */
  datatype Decision = Replace | Keep | Delay(at: nat, delta: int)

  /** What is left of the remembered path is the reported path. */
  ghost predicate Continues(known: seq<Vec3>, reported: seq<Vec3>) {
    && |reported| <= |known|
    && forall i :: 0 <= i < |reported| ==> SamePlace(reported[i], known[|known| - |reported| + i])
  }

  ghost function DecideSitting(ws: seq<Waypoint>, cumulative: int, r: Report, c: Settings): Decision
    requires ws != []
  {
    var delay := r.time + 10 * Second - Finish(ws);
    if !StillThere(r.location, ws[|ws| - 1].position, c.yawThreshold) then Replace
    else if delay <= Second then Keep
    else if cumulative + delay >= MaxCumulativeDelay then Replace
    else Delay(|ws| - 1, delay)
  }

  ghost function DecideMoving(ws: seq<Waypoint>, cumulative: int, r: Report, c: Settings): Decision
    requires ws != []
  {
    var late := Finish(Estimate(r)) - Finish(ws);
    if -c.delayThreshold < late < c.delayThreshold then Keep
    else if cumulative + late >= MaxCumulativeDelay then Replace
    else DecideShift(ws, r.time - late, late)
  }

  /** A late route is shifted from the time the delay began, an early one as a whole. */
  ghost function DecideShift(ws: seq<Waypoint>, from: Time, late: int): Decision
    requires ws != []
  {
    if from <= ws[0].time || (late < 0 && from <= Finish(ws)) then Delay(0, late)
    else if from <= Finish(ws) then Delay(LowerIndex(ws, from), late)
    else Replace
  }

  ghost function Decide(e: Entry, r: Report, c: Settings): Decision
    requires e.route.Some? ==> e.route.value != []
  {
    if e.route.None? || !Continues(e.path, r.path) || (Sits(r) && !e.sitting) then Replace
    else if Sits(r) then DecideSitting(e.route.value, e.cumulative, r, c)
    else DecideMoving(e.route.value, e.cumulative, r, c)
  }

  /** What a choice for a sitting robot achieves: its route ends ten seconds from now, give or take one. */
  ghost predicate SittingChoice(d: Decision, ws: seq<Waypoint>, cumulative: int, r: Report, c: Settings)
    requires ws != []
  {
    var target, still := r.time + 10_000_000_000, StillThere(r.location, ws[|ws| - 1].position, c.yawThreshold);
    var delay := target - Finish(ws);
    match d
    case Keep => still && delay <= 1_000_000_000
    case Delay(at, delta) =>
      && still && at == |ws| - 1 && delta > 1_000_000_000 && cumulative + delta < 5_000_000_000
      && EndsAt(ShiftedFrom(ws, at, delta), target)
    case Replace => !still || (delay > 1_000_000_000 && cumulative + delay >= 5_000_000_000)
  }

  /**
   What a choice for a moving robot achieves: its route ends when the report says, up to the
   threshold; a late route is shifted from the first waypoint that the robot has not passed yet.
   */
  ghost predicate MovingChoice(d: Decision, ws: seq<Waypoint>, cumulative: int, r: Report, c: Settings)
    requires ws != []
  {
    var target := Finish(Estimate(r));
    var late := target - Finish(ws);
    match d
    case Keep => -c.delayThreshold < late < c.delayThreshold
    case Delay(at, delta) =>
      && at < |ws| && ShiftAllowed(ws, at, delta) && cumulative + delta < 5_000_000_000
      && !(-c.delayThreshold < late < c.delayThreshold) && r.time <= target
      && EndsAt(ShiftedFrom(ws, at, delta), target)
      && (forall i :: 0 <= i < at ==> ws[i].time + delta < r.time)
      && (delta >= 0 ==> forall i :: at <= i < |ws| ==> r.time <= ws[i].time + delta)
      && (delta < 0 ==> at == 0)
    case Replace =>
      !(-c.delayThreshold < late < c.delayThreshold) && (cumulative + late >= 5_000_000_000 || target < r.time)
  }

  ghost predicate EndsAt(ws: seq<Waypoint>, t: Time) {
    ws != [] && Finish(ws) == t
  }

  lemma {:induction false} SittingChosen(ws: seq<Waypoint>, cumulative: int, r: Report, c: Settings)
    requires ws != []
    ensures SittingChoice(DecideSitting(ws, cumulative, r, c), ws, cumulative, r, c)
  {
    ShiftKeepsStates(ws, |ws| - 1, r.time + 10 * Second - Finish(ws));
  }

  lemma {:induction false} MovingChosen(ws: seq<Waypoint>, cumulative: int, r: Report, c: Settings)
    requires InOrder(ws) && ws != []
    ensures MovingChoice(DecideMoving(ws, cumulative, r, c), ws, cumulative, r, c)
  {
    var d := DecideMoving(ws, cumulative, r, c);
    if d.Delay? {
      ShiftKeepsStates(ws, d.at, d.delta);
    }
  }

  /** A report calls for a new route whenever there is none, the path is another one, or the robot came to rest. */
  ghost predicate NeedsRoute(e: Entry, r: Report) {
    e.route.None? || !Continues(e.path, r.path) || (Sits(r) && !e.sitting)
  }

  /** Why a decision was taken. */
  ghost predicate Reasoned(d: Decision, e: Entry, r: Report, c: Settings)
    requires Sound(e)
  {
    if NeedsRoute(e, r) then d == Replace
    else if Sits(r) then SittingChoice(d, e.route.value, e.cumulative, r, c)
    else MovingChoice(d, e.route.value, e.cumulative, r, c)
  }

  lemma {:induction false} DecisionReasoned(e: Entry, r: Report, c: Settings)
    requires Sound(e)
    ensures Reasoned(Decide(e, r, c), e, r, c)
  {
    if !NeedsRoute(e, r) {
      SittingChosen(e.route.value, e.cumulative, r, c);
      MovingChosen(e.route.value, e.cumulative, r, c);
    }
  }

  /** The interpolation of a path starts at the time of the report. */
  ghost predicate StartsNow(r: Report) {
    InOrder(r.interpolated) && (r.interpolated != [] ==> r.interpolated[0].time == r.time)
  }

  /**
   The case that the source reports as a bug cannot happen: a moving robot's route is only ever
   replaced because its accumulated delay would reach the maximum.
   */
  lemma {:induction false} ReplacedOnlyForDelay(ws: seq<Waypoint>, cumulative: int, r: Report, c: Settings)
    requires InOrder(ws) && ws != [] && StartsNow(r) && !Sits(r) && DecideMoving(ws, cumulative, r, c) == Replace
    ensures cumulative + (Finish(Estimate(r)) - Finish(ws)) >= 5_000_000_000
  {
    MovingChosen(ws, cumulative, r, c);
    assert r.interpolated[0].time < r.interpolated[|r.interpolated| - 1].time;
  }

  /** The remembered route and what every report keeps of it. */
  ghost predicate Sound(e: Entry) {
    e.route.Some? ==> SoundRoute(e.route.value, e.sitting)
  }

  ghost predicate SoundRoute(ws: seq<Waypoint>, sitting: bool) {
    InOrder(ws) && |ws| >= 2 && (sitting ==> ws[0].position == ws[|ws| - 1].position)
  }

  ghost predicate WellFormed(d: Decision, e: Entry) {
    d.Delay? ==> e.route.Some? && d.at < |e.route.value| && ShiftAllowed(e.route.value, d.at, d.delta)
  }

  lemma {:induction false} DecisionFits(e: Entry, r: Report, c: Settings)
    requires Sound(e)
    ensures WellFormed(Decide(e, r, c), e)
  {
  }

  ghost function Apply(e: Entry, d: Decision, r: Report): (Entry, Publication)
    requires WellFormed(d, e)
  {
    match d
    case Replace => (Entry(r.path, Some(Estimate(r)), 0, Sits(r)), PushRoute(Estimate(r)))
    case Keep => (e.(path := r.path), Nothing)
    case Delay(at, delta) =>
      (Delayed(e, r.path, at, delta), PushDelay(delta))
  }

  /** The entry with its route shifted from waypoint `at` on. */
  ghost function Delayed(e: Entry, path: seq<Vec3>, at: nat, delta: int): Entry
    requires e.route.Some? && at < |e.route.value|
  {
    Entry(path, Some(ShiftedFrom(e.route.value, at, delta)), e.cumulative + delta, e.sitting)
  }

  // ---------------------------------------------------------------- the entry in place

  class ScheduleEntry {
    var path: seq<Vec3>
    var route: Trajectory?
    var cumulative: int
    var sitting: bool

    /** The objects of the remembered route. */
    ghost function Nodes(): seq<WaypointNode>
      reads this, route
    {
      if route == null then [] else route.segments
    }

    ghost function Index(): set<OrderMap<WaypointNode>>
      reads this, route
    {
      if route == null then {} else {route.ordering}
    }

    ghost predicate Valid()
      reads this, route, Nodes(), Index()
    {
      route != null ==> route.Valid() && |route.segments| >= 2
    }

    ghost function Model(): Entry
      reads this, route, Nodes()
    {
      Entry(path, if route == null then None else Some(route.View()), cumulative, sitting)
    }

    constructor ()
      ensures Valid() && Model() == Entry([], None, 0, false) && Conserved(Model(), [])
    {
      path, route, cumulative, sitting := [], null, 0, false;
    }

    method PushRoute(r: Report) returns (published: Publication)
      requires InOrder(r.interpolated)
      modifies this
      ensures Valid() && (Model(), published) == Apply(old(Model()), Replace, r)
      ensures (forall n :: n in Nodes() ==> fresh(n)) && forall o :: o in Index() ==> fresh(o)
    {
      path := r.path;
      cumulative := 0;
      var trajectory, sits := MakeTrajectory(r);
      route, sitting := trajectory, sits;
      published := Publication.PushRoute(Estimate(r));
    }

    method UpdateRobot(r: Report, c: Settings) returns (published: Publication)
      requires Valid() && Sound(Model()) && InOrder(r.interpolated)
      modifies this, Nodes(), Index()
      ensures Valid() && Sound(Model())
      ensures WellFormed(Decide(old(Model()), r, c), old(Model()))
      ensures (Model(), published) == Apply(old(Model()), Decide(old(Model()), r, c), r)
      ensures Reasoned(Decide(old(Model()), r, c), old(Model()), r, c)
      ensures old(Model()).route.None? || !Continues(old(path), r.path) || (Sits(r) && !old(sitting)) ==>
        published == Publication.PushRoute(Estimate(r))
      ensures published.PushRoute? ==> Model() == Entry(r.path, Some(published.route), 0, Sits(r))
      ensures !published.PushRoute? ==> path == r.path && sitting == old(sitting)
      ensures forall n :: n in Nodes() ==> n in old(Nodes()) || fresh(n)
      ensures forall o :: o in Index() ==> o in old(Index()) || fresh(o)
    {
      UpdateSound(Model(), r, c);
      DecisionReasoned(Model(), r, c);
      var handled;
      handled, published := HandleDelay(r, c);
      if !handled {
        published := PushRoute(r);
      }
    }

    /** Does the remembered path end in the reported one? */
    method ContinuesPath(r: Report) returns (same: bool)
      ensures same <==> Continues(path, r.path)
    {
      if |path| < |r.path| {
        return false;
      }
      for i := 1 to |r.path| + 1
        invariant forall k :: |r.path| - i < k < |r.path| ==> SamePlace(r.path[k], path[|path| - |r.path| + k])
      {
        if !SamePlace(r.path[|r.path| - i], path[|path| - i]) {
          return false;
        }
      }
      same := true;
    }

    /** Tries to answer a report with a delay; otherwise the route has to be replaced. */
    method HandleDelay(r: Report, c: Settings) returns (handled: bool, published: Publication)
      requires Valid() && Sound(Model()) && InOrder(r.interpolated)
      modifies this, Nodes(), Index()
      ensures WellFormed(Decide(old(Model()), r, c), old(Model()))
      ensures handled <==> Decide(old(Model()), r, c) != Replace
      ensures Reasoned(Decide(old(Model()), r, c), old(Model()), r, c)
      ensures handled ==> old(Model()).route.Some? && Continues(old(path), r.path) && (Sits(r) ==> old(sitting))
      ensures handled ==> Valid() && (Model(), published) == Apply(old(Model()), Decide(old(Model()), r, c), r)
      ensures Nodes() == old(Nodes()) && Index() == old(Index())
    {
      DecisionFits(Model(), r, c);
      DecisionReasoned(Model(), r, c);
      published := Nothing;
      var decision := DecideDelay(r, c);
      handled := decision != Replace;
      if handled {
        published := CarryOut(decision, r);
      }
    }

    /** Keeps or delays the route, and remembers the reported path. */
    method CarryOut(decision: Decision, r: Report) returns (published: Publication)
      requires Valid() && route != null && !decision.Replace? && WellFormed(decision, Model())
      modifies this, Nodes(), Index()
      ensures Valid() && (Model(), published) == Apply(old(Model()), decision, r)
      ensures Nodes() == old(Nodes()) && Index() == old(Index())
    {
      if decision.Delay? {
        DelayRoute(r.path, decision.at, decision.delta);
        published := PushDelay(decision.delta);
      } else {
        path := r.path;
        published := Nothing;
      }
    }

    /** Delays the route from waypoint `at` on. */
    method DelayRoute(newPath: seq<Vec3>, at: nat, delta: int)
      requires Valid() && route != null && at < |route.segments| && ShiftAllowed(route.View(), at, delta)
      modifies this, Nodes(), Index()
      ensures Valid() && Model() == Delayed(old(Model()), newPath, at, delta)
      ensures Nodes() == old(Nodes()) && Index() == old(Index())
    {
      ghost var ws, total := route.View(), cumulative + delta;
      ShiftRoute(route, at, delta);
      assert route.Valid() && route.View() == ShiftedFrom(ws, at, delta);
      Remember(newPath, total, ShiftedFrom(ws, at, delta), delta);
    }

    /** Writes the path and the accumulated delay beside an unchanged route. */
    method Remember(newPath: seq<Vec3>, ghost total: int, ghost ws: seq<Waypoint>, delta: int)
      requires Valid() && route != null && route.View() == ws && total == cumulative + delta
      modifies this`path, this`cumulative
      ensures Valid() && Model() == Entry(newPath, Some(ws), total, sitting)
    {
      path, cumulative := newPath, cumulative + delta;
    }

    static method ShiftRoute(t: Trajectory, at: nat, delta: int)
      requires t.Valid() && at < |t.segments| && ShiftAllowed(t.View(), at, delta)
      modifies t.ordering, t.segments
      ensures t.Valid() && t.segments == old(t.segments) && t.View() == ShiftedFrom(old(t.View()), at, delta)
    {
      var ok := t.AdjustTimes(at, delta);
    }

    method DecideDelay(r: Report, c: Settings) returns (decision: Decision)
      requires Valid() && Sound(Model()) && InOrder(r.interpolated)
      ensures decision == Decide(Model(), r, c)
    {
      if route == null {
        return Replace;
      }
      var same := ContinuesPath(r);
      if !same {
        return Replace;
      }
      var estimate, sits := MakeTrajectory(r);
      if sitting && sits {
        decision := DecideWhenSitting(r, c);
      } else if sits {
        decision := Replace;
      } else {
        decision := DecideWhenMoving(r, c, estimate);
      }
    }

    method DecideWhenSitting(r: Report, c: Settings) returns (decision: Decision)
      requires Valid() && Sound(Model()) && route != null && sitting
      ensures decision == DecideSitting(route.View(), cumulative, r, c)
      ensures SittingChoice(decision, route.View(), cumulative, r, c)
    {
      SittingChosen(route.View(), cumulative, r, c);
      var last := route.segments[|route.segments| - 1];
      assert last.Value() == route.View()[|route.segments| - 1];
      assert route.segments[0].position == last.position by {
        assert route.View()[0] == route.segments[0].Value();
      }
      if !StillThere(r.location, last.position, c.yawThreshold) {
        return Replace;
      }
      var delay := r.time + 10 * Second - last.time;
      if delay > Second {
        return if cumulative + delay >= MaxCumulativeDelay then Replace else Delay(|route.segments| - 1, delay);
      }
      decision := Keep;
    }

    method DecideWhenMoving(r: Report, c: Settings, estimate: Trajectory) returns (decision: Decision)
      requires Valid() && route != null
      requires estimate.Valid() && estimate.View() == Estimate(r)
      ensures decision == DecideMoving(route.View(), cumulative, r, c)
      ensures MovingChoice(decision, route.View(), cumulative, r, c)
    {
      decision := ChooseWhenMoving(r, c, estimate);
      route.ViewInOrder();
      MovingChosen(route.View(), cumulative, r, c);
    }

    method ChooseWhenMoving(r: Report, c: Settings, estimate: Trajectory) returns (decision: Decision)
      requires Valid() && route != null
      requires estimate.Valid() && estimate.View() == Estimate(r)
      ensures decision == DecideMoving(route.View(), cumulative, r, c)
    {
      var last := route.segments[|route.segments| - 1];
      assert last.Value() == route.View()[|route.segments| - 1];
      var target := estimate.segments[|estimate.segments| - 1];
      assert target.Value() == estimate.View()[|estimate.segments| - 1];
      var late := target.time - last.time;
      if -c.delayThreshold < late < c.delayThreshold {
        return Keep;
      }
      if cumulative + late >= MaxCumulativeDelay {
        return Replace;
      }
      decision := DecideFrom(r.time - late, late);
    }

    method DecideFrom(from: Time, late: int) returns (decision: Decision)
      requires Valid() && route != null
      ensures decision == DecideShift(route.View(), from, late)
    {
      var first := route.segments[0];
      assert first.Value() == route.View()[0];
      var at := route.Find(from);
      route.ViewInOrder();
      FindMeans(route.View(), from, at);
      if at == |route.segments| {
        decision := if from <= first.time then Delay(0, late) else Replace;
      } else {
        decision := Delay(if late < 0 then 0 else at, late);
      }
    }

    lemma {:induction false} FindMeans(ws: seq<Waypoint>, from: Time, at: nat)
      requires InOrder(ws) && |ws| >= 2
      requires at == if from < ws[0].time then |ws| else LowerIndex(ws, from)
      ensures at == |ws| <==> from < ws[0].time || Finish(ws) < from
      ensures from == ws[0].time ==> at == 0
    {
      if from == ws[0].time { LowerIndexIs(ws, from, 0); }
      if ws[0].time < from <= Finish(ws) && LowerIndex(ws, from) == |ws| { assert false; }
    }
  }

  lemma {:induction false} ShiftKeepsSound(ws: seq<Waypoint>, sitting: bool, at: nat, delta: int)
    requires SoundRoute(ws, sitting) && at < |ws| && ShiftAllowed(ws, at, delta)
    ensures SoundRoute(ShiftedFrom(ws, at, delta), sitting)
  {
    ShiftedFromInOrder(ws, at, delta);
    ShiftKeepsStates(ws, at, delta);
  }

  lemma {:induction false} ShiftKeepsStates(ws: seq<Waypoint>, at: nat, delta: int)
    requires at < |ws|
    ensures var now := ShiftedFrom(ws, at, delta); SameStates(now, ws) && Finish(now) == Finish(ws) + delta
  {
    ShiftedFromAt(ws, at, delta, |ws| - 1);
    forall k | 0 <= k < |ws| ensures SameState(ShiftedFrom(ws, at, delta), ws, k) {
      ShiftedFromAt(ws, at, delta, k);
    }
  }

  // ---------------------------------------------------------------- whole runs

  ghost predicate SameState(a: seq<Waypoint>, b: seq<Waypoint>, i: nat) {
    i < |a| && i < |b| && a[i].State() == b[i].State()
  }

  ghost predicate SameStates(a: seq<Waypoint>, b: seq<Waypoint>) {
    |a| == |b| && forall i :: 0 <= i < |a| ==> SameState(a, b, i)
  }

  /** The delays told to the schedule since the last route was put on it. */
  ghost function DelaySum(log: seq<Publication>): int {
    if log == [] then 0
    else
      var n := |log| - 1;
      match log[n]
      case Nothing => DelaySum(log[..n])
      case PushRoute(_) => 0
      case PushDelay(d) => DelaySum(log[..n]) + d
  }

  ghost function LastRoute(log: seq<Publication>): Option<seq<Waypoint>> {
    if log == [] then None
    else if log[|log| - 1].PushRoute? then Some(log[|log| - 1].route)
    else LastRoute(log[..|log| - 1])
  }

  /** The schedule and the entry agree. */
  ghost predicate Conserved(e: Entry, log: seq<Publication>) {
    && Sound(e) && e.cumulative == DelaySum(log) < 5_000_000_000
    && (e.route.Some? <==> LastRoute(log).Some?)
    && (e.route.Some? ==>
      var pushed := LastRoute(log).value;
      && SameStates(e.route.value, pushed)
      && Finish(e.route.value) == Finish(pushed) + DelaySum(log))
  }

  ghost function Update(e: Entry, r: Report, c: Settings): (Entry, Publication)
    requires Sound(e)
  {
    DecisionFits(e, r, c);
    Apply(e, Decide(e, r, c), r)
  }

  lemma {:induction false} UpdateSound(e: Entry, r: Report, c: Settings)
    requires Sound(e) && InOrder(r.interpolated)
    ensures WellFormed(Decide(e, r, c), e) && Sound(Update(e, r, c).0)
  {
    DecisionFits(e, r, c);
    var d := Decide(e, r, c);
    if d.Delay? {
      ShiftKeepsSound(e.route.value, e.sitting, d.at, d.delta);
    }
  }

  lemma {:induction false} UpdateConserves(e: Entry, log: seq<Publication>, r: Report, c: Settings)
    requires Conserved(e, log) && InOrder(r.interpolated)
    ensures var (now, published) := Update(e, r, c); Conserved(now, log + [published])
  {
    UpdateSound(e, r, c);
    var d := Decide(e, r, c);
    LogOneMore(log, Apply(e, d, r).1);
    if d.Delay? {
      assert e.cumulative + d.delta < MaxCumulativeDelay;
      DelayConserves(e, log, r.path, d.at, d.delta);
    }
  }

  lemma {:induction false} DelayConserves(e: Entry, log: seq<Publication>, path: seq<Vec3>, at: nat, delta: int)
    requires Conserved(e, log) && WellFormed(Delay(at, delta), e) && e.cumulative + delta < MaxCumulativeDelay
    ensures Conserved(Delayed(e, path, at, delta), log + [PushDelay(delta)])
  {
    LogOneMore(log, PushDelay(delta));
    ShiftKeepsSound(e.route.value, e.sitting, at, delta);
    ShiftKeepsStates(e.route.value, at, delta);
    SameStatesTransitive(ShiftedFrom(e.route.value, at, delta), e.route.value, LastRoute(log).value);
  }

  lemma {:induction false} SameStatesTransitive(a: seq<Waypoint>, b: seq<Waypoint>, c: seq<Waypoint>)
    requires SameStates(a, b) && SameStates(b, c)
    ensures SameStates(a, c)
  {
    forall i | 0 <= i < |a| ensures SameState(a, c, i) {
      assert SameState(a, b, i) && SameState(b, c, i);
    }
  }

  lemma {:induction false} LogOneMore(log: seq<Publication>, p: Publication)
    ensures DelaySum(log + [p])
         == if p.PushRoute? then 0 else if p.PushDelay? then DelaySum(log) + p.delay else DelaySum(log)
    ensures LastRoute(log + [p]) == if p.PushRoute? then Some(p.route) else LastRoute(log)
  {
    assert (log + [p])[..|log|] == log;
  }

  /** The scheduled finish is the estimated one up to the reporting thresholds. */
  ghost predicate Follows(e: Entry, r: Report, c: Settings)
    requires e.route.Some?
  {
    && e.path == r.path && e.route.value != []
    && var gap := Finish(Estimate(r)) - Finish(e.route.value);
       if Sits(r) then gap <= 1_000_000_000 else gap == 0 || -c.delayThreshold < gap < c.delayThreshold
  }

  lemma {:induction false} UpdateTracks(e: Entry, r: Report, c: Settings)
    requires Sound(e) && InOrder(r.interpolated)
    ensures var now := Update(e, r, c).0; now.route.Some? && Follows(now, r, c)
  {
    DecisionFits(e, r, c);
    var d := Decide(e, r, c);
    if d.Delay? {
      ShiftKeepsStates(e.route.value, d.at, d.delta);
    }
  }

  ghost predicate Ordered(reports: seq<Report>) {
    forall i :: 0 <= i < |reports| ==> InOrder(reports[i].interpolated)
  }

  ghost function UpdateAll(e: Entry, log: seq<Publication>, reports: seq<Report>, c: Settings)
    : (Entry, seq<Publication>)
    requires Conserved(e, log) && Ordered(reports)
    decreases |reports|
  {
    if reports == [] then (e, log)
    else
      UpdateConserves(e, log, reports[0], c);
      var (now, published) := Update(e, reports[0], c);
      UpdateAll(now, log + [published], reports[1..], c)
  }

  /**
   Delay conservation: after any number of reports the accumulated delay is what the schedule
   was told since the last route, stays below the maximum, and explains the finish time of the
   route; and that finish follows the estimate of the last report.
   */
  lemma {:induction false} DelaysConserved(e: Entry, log: seq<Publication>, reports: seq<Report>, c: Settings)
    requires Conserved(e, log) && Ordered(reports)
    ensures var (now, told) := UpdateAll(e, log, reports, c);
      && Conserved(now, told)
      && (reports != [] ==> now.route.Some? && Follows(now, reports[|reports| - 1], c))
    decreases |reports|
  {
    if reports != [] {
      UpdateConserves(e, log, reports[0], c);
      UpdateTracks(e, reports[0], c);
      var rest := reports[1..];
      var (now, published) := Update(e, reports[0], c);
      DelaysConserved(now, log + [published], rest, c);
      assert rest != [] ==> rest[|rest| - 1] == reports[|reports| - 1];
    }
  }

  /** The path reported before report `k`. */
  ghost function PathBefore(path: seq<Vec3>, reports: seq<Report>, k: nat): seq<Vec3>
    requires k < |reports|
  {
    if k == 0 then path else reports[k - 1].path
  }

  /** Report `k` carries on with the path reported before it. */
  ghost predicate CarriesOn(path: seq<Vec3>, reports: seq<Report>, k: nat) {
    k < |reports| && Continues(PathBefore(path, reports, k), reports[k].path)
  }

  /**
   The schedule holds the route of report `pushed`, or the earlier route when `pushed` is -1, and every
   report since then carries on with the path of the report before it.
   */
  ghost predicate ScheduledBy(pushed: int, path: seq<Vec3>, log: seq<Publication>, reports: seq<Report>,
                              told: seq<Publication>) {
    && -1 <= pushed < |reports|
    && LastRoute(told) == (if pushed >= 0 then Some(Estimate(reports[pushed])) else LastRoute(log))
    && forall k :: pushed < k < |reports| ==> CarriesOn(path, reports, k)
  }

  /** Over any run of reports the scheduled route is one for the path that the robot now reports. */
  lemma {:induction false} RouteIsForPath(e: Entry, log: seq<Publication>, reports: seq<Report>, c: Settings)
    returns (pushed: int)
    requires Conserved(e, log) && Ordered(reports)
    ensures ScheduledBy(pushed, e.path, log, reports, UpdateAll(e, log, reports, c).1)
    ensures e.route.None? && reports != [] ==> pushed >= 0
    decreases |reports|
  {
    pushed := -1;
    if reports != [] {
      var (now, published) := Update(e, reports[0], c);
      UpdateConserves(e, log, reports[0], c);
      UpdateTells(e, reports[0], c);
      var later := RouteIsForPath(now, log + [published], reports[1..], c);
      pushed := if later >= 0 then later + 1 else if published.PushRoute? then 0 else -1;
      ScheduledFirst(later, e.path, log, reports, published, UpdateAll(e, log, reports, c).1);
    }
  }

  /** One report: it is remembered, and without a new route it carries on with the remembered path. */
  lemma {:induction false} UpdateTells(e: Entry, r: Report, c: Settings)
    requires Sound(e)
    ensures var (now, published) := Update(e, r, c);
      && now.path == r.path && (e.route.None? ==> published.PushRoute?)
      && if published.PushRoute? then published.route == Estimate(r) else Continues(e.path, r.path)
  {
    DecisionReasoned(e, r, c);
  }

  lemma {:induction false} ScheduledFirst(later: int, path: seq<Vec3>, log: seq<Publication>, reports: seq<Report>,
                                          published: Publication, told: seq<Publication>)
    requires reports != [] && ScheduledBy(later, reports[0].path, log + [published], reports[1..], told)
    requires if published.PushRoute? then published.route == Estimate(reports[0])
             else Continues(path, reports[0].path)
    ensures var pushed := if later >= 0 then later + 1 else if published.PushRoute? then 0 else -1;
      ScheduledBy(pushed, path, log, reports, told)
  {
    var pushed := if later >= 0 then later + 1 else if published.PushRoute? then 0 else -1;
    LogOneMore(log, published);
    forall k | pushed < k < |reports| ensures CarriesOn(path, reports, k) {
      assert k > 0 ==> CarriesOn(reports[0].path, reports[1..], k - 1);
    }
  }

  /**
   The entry itself, over any run of reports: it goes through these updates, what it tells the
   schedule is conserved and follows the last report, and the route belongs to the reported path.
   */
  method ReportAll(entry: ScheduleEntry, reports: seq<Report>, c: Settings, ghost log: seq<Publication>,
                   ghost nodes: set<WaypointNode>, ghost indices: set<OrderMap<WaypointNode>>)
    returns (told: seq<Publication>, ghost pushed: int)
    requires entry.Valid() && Conserved(entry.Model(), log) && Ordered(reports) && Owns(entry, nodes, indices)
    modifies entry, nodes, indices
    ensures entry.Valid() && (entry.Model(), log + told) == UpdateAll(old(entry.Model()), log, reports, c)
    ensures ScheduledBy(pushed, old(entry.path), log, reports, log + told)
    ensures old(entry.route) == null && reports != [] ==> pushed >= 0
    ensures Conserved(entry.Model(), log + told)
    ensures reports != [] ==> entry.Model().route.Some? && Follows(entry.Model(), reports[|reports| - 1], c)
  {
    DelaysConserved(entry.Model(), log, reports, c);
    pushed := RouteIsForPath(entry.Model(), log, reports, c);
    told := Feed(entry, reports, c, log, nodes, indices);
  }

  ghost predicate Owns(entry: ScheduleEntry, nodes: set<WaypointNode>, indices: set<OrderMap<WaypointNode>>)
    reads entry, entry.route
  {
    (forall n :: n in entry.Nodes() ==> n in nodes) && forall o :: o in entry.Index() ==> o in indices
  }

  method Feed(entry: ScheduleEntry, reports: seq<Report>, c: Settings, ghost log: seq<Publication>,
              ghost nodes: set<WaypointNode>, ghost indices: set<OrderMap<WaypointNode>>)
    returns (told: seq<Publication>)
    requires entry.Valid() && Conserved(entry.Model(), log) && Ordered(reports) && Owns(entry, nodes, indices)
    modifies entry, nodes, indices
    ensures entry.Valid() && (entry.Model(), log + told) == UpdateAll(old(entry.Model()), log, reports, c)
    decreases |reports|
  {
    told := [];
    assert log + told == log;
    if reports != [] {
      ghost var more, others := {}, {};
      var published;
      published, more, others := FeedOne(entry, reports, c, log, nodes, indices);
      told := Feed(entry, reports[1..], c, log + [published], more, others);
      told := Publish(published, told, log);
    }
  }

  method Publish(first: Publication, rest: seq<Publication>, ghost log: seq<Publication>)
    returns (told: seq<Publication>)
    ensures log + told == log + [first] + rest
  {
    told := [first] + rest;
  }

  lemma {:induction false} UpdateAllStep(e: Entry, log: seq<Publication>, reports: seq<Report>, c: Settings, now: Entry,
                                         published: Publication)
    requires Conserved(e, log) && Ordered(reports) && reports != []
    requires (now, published) == Update(e, reports[0], c)
    ensures Ordered(reports[1..]) && Conserved(now, log + [published])
    ensures UpdateAll(e, log, reports, c) == UpdateAll(now, log + [published], reports[1..], c)
  {
    UpdateConserves(e, log, reports[0], c);
  }

  method FeedOne(entry: ScheduleEntry, reports: seq<Report>, c: Settings, ghost log: seq<Publication>,
                 ghost nodes: set<WaypointNode>, ghost indices: set<OrderMap<WaypointNode>>)
    returns (published: Publication, ghost more: set<WaypointNode>, ghost others: set<OrderMap<WaypointNode>>)
    requires entry.Valid() && Conserved(entry.Model(), log) && Ordered(reports) && Owns(entry, nodes, indices)
    requires reports != []
    modifies entry, nodes, indices
    ensures entry.Valid() && Ordered(reports[1..]) && Conserved(entry.Model(), log + [published])
    ensures UpdateAll(old(entry.Model()), log, reports, c)
         == UpdateAll(entry.Model(), log + [published], reports[1..], c)
    ensures Owns(entry, more, others)
    ensures (forall n :: n in more ==> n in nodes || fresh(n)) && forall o :: o in others ==> o in indices || fresh(o)
  {
    ghost var before := entry.Model();
    published := entry.UpdateRobot(reports[0], c);
    UpdateAllStep(before, log, reports, c, entry.Model(), published);
    more, others := (set n | n in entry.Nodes()), entry.Index();
  }
}
