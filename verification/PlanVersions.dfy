/**
 Confirmation of plans in the traffic-light adapter.  Approvals, rejections and
 location updates are scheduled on a worker and carry the path and plan version
 they were made for; they may run long after those versions are gone.  The location update
 is given its plan version but does not look at it.
 */
module PlanVersions {
  import opened Waypoints
  import opened CheckpointBatches

  datatype Callback =
    | Approve(path: nat, plan: nat)
    | Reject(path: nat, plan: nat, lastDeparted: nat)
    | UpdateLocation(path: nat, plan: nat, checkpoint: nat)

  /** What reaches the blockade moderator and the planner. */
  datatype Effect = Released(plan: nat, end: nat) | Replanned(plan: nat)

  datatype Data = Data(
    path: nat, plan: nat, pathSize: nat, rangeEnd: nat, approved: bool, rejected: bool, awaiting: bool,
    lastDeparted: Option<nat>)

  /** The body of a scheduled approval. */
  function Approved(d: Data, path: nat, plan: nat): (Data, seq<Effect>) {
    if path != d.path || plan != d.plan || d.approved then (d, [])
    else (d.(approved := true, awaiting := false), [Released(d.plan, d.rangeEnd)])
  }

  /** The body of a scheduled rejection; the location is kept even when the plan is an old one. */
  function Rejection(d: Data, path: nat, plan: nat, lastDeparted: nat): (Data, seq<Effect>) {
    if path != d.path || d.rejected then (d, [])
    else
      var located := d.(lastDeparted := Some(lastDeparted));
      if plan != d.plan || d.pathSize <= lastDeparted + 1 then (located, [])
      else (located.(rejected := true, awaiting := false), [Replanned(d.plan)])
  }

  /** The body of a scheduled location update; an awaited confirmation is concluded from the location. */
  function Located(d: Data, path: nat, checkpoint: nat): (Data, seq<Callback>) {
    if path != d.path then (d, [])
    else
      var before := d.lastDeparted;
      var last := if before.Some? && checkpoint < before.value then before.value else checkpoint;
      (d.(lastDeparted := Some(last)),
       if !d.awaiting then []
       else if checkpoint < d.rangeEnd then [Approve(d.path, d.plan)]
       else [Reject(d.path, d.plan, checkpoint)])
  }

  /**
   A plan arrives for a path: the plan version moves on and its confirmation starts afresh.  One is
   awaited when checkpoints are sent again or when the plan begins with an immediate stop.
   */
  function NewTiming(d: Data, path: nat, first: nat, slow: Option<nat>, stop: bool): Data {
    if path != d.path then d
    else
      var range := Progress(0, d.rangeEnd, 0);
      d.(plan := d.plan + 1, approved := false, rejected := false,
         rangeEnd := AfterReplan(range, first, d.rejected, slow).end,
         awaiting := Resends(range, first, d.rejected, slow) || stop)
  }

  /** The first plan of a new path, whose range is empty; the last departure was forgotten when the path came in. */
  function NewPath(d: Data, path: nat, size: nat, first: nat, stop: bool): Data {
    NewTiming(d.(path := path, pathSize := size, rangeEnd := 0), path, first, None, stop)
  }

  class PlanTracker {
    var path: nat
    var plan: nat
    var pathSize: nat
    var rangeEnd: nat
    var approved: bool
    var rejected: bool
    var awaiting: bool
    var lastDeparted: Option<nat>
    var queue: seq<Callback>

    /** Everything that has reached the moderator and the planner so far. */
    ghost var log: seq<Effect>

    ghost function Model(): Data
      reads this
    {
      Data(path, plan, pathSize, rangeEnd, approved, rejected, awaiting, lastDeparted)
    }

    ghost function State(): World
      reads this
    {
      World(Model(), queue, log)
    }

    constructor ()
      ensures State() == World(Data(0, 0, 0, 0, false, false, false, None), [], []) && Accounted(State())
    {
      path, plan, pathSize, rangeEnd, queue := 0, 0, 0, 0, [];
      approved, rejected, awaiting, lastDeparted := false, false, false, None;
      log := [];
    }

    method Schedule(c: Callback)
      modifies this`queue
      ensures State() == Act(old(State()), Enqueue(c))
    {
      queue := queue + [c];
    }

    /** Runs one scheduled callback, whichever the worker picks. */
    method Run(k: nat) returns (effects: seq<Effect>)
      requires k < |queue|
      modifies this
      ensures State() == Act(old(State()), RunAt(k)) && log == old(log) + effects
      ensures Accounted(old(State())) ==> Accounted(State())
      ensures (path, plan, pathSize, rangeEnd) == old((path, plan, pathSize, rangeEnd))
      ensures CallsForRelease(old(Model()), old(queue)[k]) ==>
        effects == [Released(plan, rangeEnd)] && approved && rejected == old(rejected) && !awaiting
      ensures CallsForReplan(old(Model()), old(queue)[k]) ==>
        effects == [Replanned(plan)] && rejected && approved == old(approved) && !awaiting
      ensures !CallsForRelease(old(Model()), old(queue)[k]) && !CallsForReplan(old(Model()), old(queue)[k]) ==>
        effects == [] && (approved, rejected, awaiting) == old((approved, rejected, awaiting))
      ensures DepartureAfter(old(Model()), old(queue)[k], lastDeparted)
      ensures var others := old(queue[..k] + queue[k + 1..]);
        queue == if ConcludesConfirmation(old(Model()), old(queue)[k])
                 then others + [Conclusion(old(Model()), old(queue)[k].checkpoint)] else others
    {
      ghost var before := State();
      RanMeans(before.data, queue, k);
      if Accounted(before) {
        ActAccounted(before, RunAt(k));
      }
      effects := TakeAndRun(k);
    }

    method TakeAndRun(k: nat) returns (effects: seq<Effect>)
      requires k < |queue|
      modifies this
      ensures (Model(), queue, effects) == Ran(old(Model()), old(queue), k) && log == old(log) + effects
    {
      effects := [];
      var c := queue[k];
      queue := queue[..k] + queue[k + 1..];
      match c {
        case Approve(p, q) => effects := Confirm(p, q);
        case Reject(p, q, last) => effects := Refuse(p, q, last);
        case UpdateLocation(p, _, checkpoint) => Locate(p, checkpoint);
      }
      log := log + effects;
    }

    method Confirm(p: nat, q: nat) returns (effects: seq<Effect>)
      modifies this
      ensures (Model(), effects) == Approved(old(Model()), p, q) && queue == old(queue) && log == old(log)
    {
      effects := [];
      if p != path || q != plan || approved { return; }
      approved, awaiting := true, false;
      effects := [Released(plan, rangeEnd)];
    }

    method Refuse(p: nat, q: nat, last: nat) returns (effects: seq<Effect>)
      modifies this
      ensures (Model(), effects) == Rejection(old(Model()), p, q, last) && queue == old(queue) && log == old(log)
    {
      effects := [];
      if p != path || rejected { return; }
      lastDeparted := Some(last);
      if q != plan { return; }
      if pathSize <= last + 1 { return; }
      rejected, awaiting := true, false;
      effects := [Replanned(plan)];
    }

    method Locate(p: nat, checkpoint: nat)
      modifies this
      ensures var (now, more) := Located(old(Model()), p, checkpoint);
        Model() == now && queue == old(queue) + more && log == old(log)
    {
      assert queue + [] == queue;
      if p != path { return; }
      if !(lastDeparted.Some? && checkpoint < lastDeparted.value) {
        lastDeparted := Some(checkpoint);
      }
      if awaiting {
        if checkpoint < rangeEnd {
          Schedule(Approve(path, plan));
        } else {
          Schedule(Reject(path, plan, checkpoint));
        }
      }
    }

    /** A plan arrives.  Confirmations of the plans before it are stale from now on; none of its own was answered. */
    method UpdateTiming(version: nat, first: nat, slow: Option<nat>, stop: bool)
      modifies this
      ensures State() == Act(old(State()), Plan(version, first, slow, stop))
      ensures Accounted(old(State())) ==> Accounted(State())
      ensures Accounted(old(State())) && version == path ==> Releases(log, plan) == 0 && Replans(log, plan) == 0
      ensures version == path ==> plan == old(plan) + 1 && !approved && !rejected
      ensures version == path ==> (awaiting <==> first < old(rangeEnd) || old(rejected) || slow.Some? || stop)
      ensures version == path ==>
        rangeEnd == if old(rangeEnd) <= first && !old(rejected) && slow.Some? then slow.value else old(rangeEnd)
      ensures version != path ==> Model() == old(Model())
      ensures version == path ==> forall c :: c in queue && c.plan <= old(plan) ==> Stale(Model(), c)
    {
      ghost var before := State();
      if Accounted(before) {
        ActAccounted(before, Plan(version, first, slow, stop));
        assert AccountedFor(before.data, log, plan + 1);
      }
      if version != path { return; }
      approved := false;
      plan := plan + 1;
      var resend := first < rangeEnd || rejected;
      rejected := false;
      if !resend && slow.Some? {
        resend, rangeEnd := true, slow.value;
      }
      awaiting := true;
      if !resend && !stop {
        awaiting := false;
      }
    }

    /** A path comes in; its versions only change once it is planned. */
    method ReceivePath()
      modifies this`lastDeparted
      ensures State() == Act(old(State()), Receive) && lastDeparted == None
    {
      lastDeparted := None;
    }

    /** The first plan of a path.  Callbacks of every other path are stale from now on. */
    method StartPath(version: nat, size: nat, first: nat, stop: bool)
      modifies this
      ensures State() == Act(old(State()), Path(version, size, first, stop))
      ensures Accounted(old(State())) ==> Accounted(State()) && Releases(log, plan) == 0 && Replans(log, plan) == 0
      ensures path == version && pathSize == size && rangeEnd == 0 && plan == old(plan) + 1 && !approved && !rejected
      ensures awaiting <==> old(rejected) || stop
      ensures forall c :: c in queue && (c.path != version || c.plan <= old(plan)) ==> Stale(Model(), c)
    {
      ghost var before := State();
      if Accounted(before) {
        ActAccounted(before, Path(version, size, first, stop));
        assert AccountedFor(before.data, log, plan + 1);
      }
      path, pathSize, rangeEnd := version, size, 0;
      UpdateTiming(version, first, None, stop);
    }

    /** A range from the moderator; ranges are not believed while a confirmation is awaited. */
    method ReserveRange(end: nat)
      modifies this`rangeEnd
      ensures State() == Act(old(State()), Reserve(end))
      ensures rangeEnd == if awaiting then old(rangeEnd) else end
    {
      if !awaiting {
        rangeEnd := end;
      }
    }

    method Obey(a: Action)
      modifies this
      ensures State() == Act(old(State()), a)
    {
      match a {
        case Enqueue(c) => Schedule(c);
        case RunAt(k) =>
          if k < |queue| {
            var effects := Run(k);
          }
        case Plan(version, first, slow, stop) => UpdateTiming(version, first, slow, stop);
        case Receive => ReceivePath();
        case Path(version, size, first, stop) => StartPath(version, size, first, stop);
        case Reserve(end) => ReserveRange(end);
      }
    }

    /** Any interleaving: each plan version is released at most once and replanned at most once. */
    method ObeyAll(actions: seq<Action>)
      modifies this
      ensures State() == ActAll(old(State()), actions)
      ensures Accounted(old(State())) ==>
        && (approved <==> Releases(log, plan) == 1) && (rejected <==> Replans(log, plan) == 1)
        && (awaiting ==> Releases(log, plan) == 0 && Replans(log, plan) == 0)
        && Accounted(State()) && forall v: nat :: Releases(log, v) <= 1 && Replans(log, v) <= 1
      decreases |actions|
    {
      ghost var before := State();
      if Accounted(before) {
        forall v: nat ensures Accounted(ActAll(before, actions))
          && Releases(ActAll(before, actions).log, v) <= 1 && Replans(ActAll(before, actions).log, v) <= 1
        {
          AtMostOncePerPlan(before, actions, v);
        }
        AtMostOncePerPlan(before, actions, ActAll(before, actions).data.plan);
      }
      if actions != [] {
        Obey(actions[0]);
        ObeyAll(actions[1..]);
      }
    }
  }

  ghost function Ran(d: Data, queue: seq<Callback>, k: nat): (Data, seq<Callback>, seq<Effect>)
    requires k < |queue|
  {
    var rest := queue[..k] + queue[k + 1..];
    match queue[k]
    case Approve(p, q) => var (now, effects) := Approved(d, p, q); (now, rest, effects)
    case Reject(p, q, last) => var (now, effects) := Rejection(d, p, q, last); (now, rest, effects)
    case UpdateLocation(p, _, c) => var (now, more) := Located(d, p, c); (now, rest + more, [])
  }

  // ---------------------------------------------------------------- stale callbacks

  /** A callback made for another path or another plan. */
  ghost predicate Stale(d: Data, c: Callback) {
    c.path != d.path || c.plan != d.plan
  }

  /** An approval of the current plan, the first one. */
  ghost predicate CallsForRelease(d: Data, c: Callback) {
    c.Approve? && c.path == d.path && c.plan == d.plan && !d.approved
  }

  /** A rejection of the current plan, the first one, with some of the path left. */
  ghost predicate CallsForReplan(d: Data, c: Callback) {
    c.Reject? && c.path == d.path && c.plan == d.plan && !d.rejected && c.lastDeparted + 1 < d.pathSize
  }

  /** A rejection sets the last departure, a location update only moves it on; both count for any plan of the path. */
  ghost predicate DepartureAfter(d: Data, c: Callback, now: Option<nat>) {
    if c.path != d.path || c.Approve? || (c.Reject? && d.rejected) then now == d.lastDeparted
    else if c.Reject? then now == Some(c.lastDeparted)
    else
      && now.Some? && c.checkpoint <= now.value && (now == Some(c.checkpoint) || now == d.lastDeparted)
      && (d.lastDeparted.Some? ==> d.lastDeparted.value <= now.value)
  }

  /** A location update for the current path while a confirmation is awaited, whatever plan it was made for. */
  ghost predicate ConcludesConfirmation(d: Data, c: Callback) {
    c.UpdateLocation? && c.path == d.path && d.awaiting
  }

  /** The confirmation of the current plan that is concluded from a location. */
  ghost function Conclusion(d: Data, checkpoint: nat): Callback {
    if checkpoint < d.rangeEnd then Approve(d.path, d.plan) else Reject(d.path, d.plan, checkpoint)
  }

  /** What a callback does: exactly the first approval and the first rejection of the current plan have an effect. */
  lemma {:induction false} RanMeans(d: Data, queue: seq<Callback>, k: nat)
    requires k < |queue|
    ensures var (now, rest, effects) := Ran(d, queue, k);
      && now == d.(approved := now.approved, rejected := now.rejected, awaiting := now.awaiting,
                   lastDeparted := now.lastDeparted)
      && (CallsForRelease(d, queue[k]) ==>
            effects == [Released(d.plan, d.rangeEnd)] && now.approved && now.rejected == d.rejected && !now.awaiting)
      && (CallsForReplan(d, queue[k]) ==>
            effects == [Replanned(d.plan)] && now.rejected && now.approved == d.approved && !now.awaiting)
      && (!CallsForRelease(d, queue[k]) && !CallsForReplan(d, queue[k]) ==>
            effects == [] && (now.approved, now.rejected, now.awaiting) == (d.approved, d.rejected, d.awaiting))
      && DepartureAfter(d, queue[k], now.lastDeparted)
      && var others := queue[..k] + queue[k + 1..];
         rest == if ConcludesConfirmation(d, queue[k]) then others + [Conclusion(d, queue[k].checkpoint)] else others
  {
    var others := queue[..k] + queue[k + 1..];
    assert others + [] == others;
  }

  /**
   A stale callback has no effect and leaves the versions, the range and the state of the
   confirmation alone.  It queues something, a confirmation of the current plan, if and only if it
   is a location update for the current path and a confirmation is awaited.
   */
  lemma {:induction false} StaleExactly(d: Data, queue: seq<Callback>, k: nat)
    requires k < |queue| && Stale(d, queue[k])
    ensures var (now, rest, effects) := Ran(d, queue, k);
      && effects == [] && now == d.(lastDeparted := now.lastDeparted)
      && (queue[k].path != d.path ==> now == d)
      && var others := queue[..k] + queue[k + 1..];
         && (rest == others <==> !ConcludesConfirmation(d, queue[k]))
         && (ConcludesConfirmation(d, queue[k]) ==> rest == others + [Conclusion(d, queue[k].checkpoint)])
  {
    var others := queue[..k] + queue[k + 1..];
    assert others + [] == others;
  }

  /**
   So a location that the robot reported under an older plan can confirm the current one: here an
   update made for plan 5 runs under plan 6, and plan 6 is released.
   */
  lemma {:induction false} OldLocationReleasesNewPlan(w: World)
    requires w == World(Data(1, 5, 10, 4, false, false, true, None), [], [])
    ensures var end := ActAll(w, [Enqueue(UpdateLocation(1, 5, 2)), Plan(1, 3, None, false), RunAt(0), RunAt(0)]);
      end.log == [Released(6, 4)]
  {
    var actions := [Enqueue(UpdateLocation(1, 5, 2)), Plan(1, 3, None, false), RunAt(0), RunAt(0)];
    var queued := Act(w, actions[0]);
    var planned := Act(queued, actions[1]);
    var located := Act(planned, RunAt(0));
    assert queued.queue == [UpdateLocation(1, 5, 2)];
    assert planned.data == Data(1, 6, 10, 4, false, false, true, None);
    assert located.queue == [Approve(1, 6)];
    assert Act(located, RunAt(0)).log == [Released(6, 4)];
    assert actions[1..] == [Plan(1, 3, None, false), RunAt(0), RunAt(0)];
    assert actions[1..][1..] == [RunAt(0), RunAt(0)] && actions[1..][1..][1..] == [RunAt(0)];
    assert actions[1..][1..][1..][1..] == [];
  }

  // ---------------------------------------------------------------- whole runs

  datatype Action =
    | Enqueue(c: Callback)
    | RunAt(k: nat)
    | Plan(path: nat, first: nat, slow: Option<nat>, stop: bool)
    | Receive
    | Path(path: nat, size: nat, first: nat, stop: bool)
    | Reserve(rangeEnd: nat)

  datatype World = World(data: Data, queue: seq<Callback>, log: seq<Effect>)

  ghost function Act(w: World, a: Action): World {
    match a
    case Enqueue(c) => w.(queue := w.queue + [c])
    case RunAt(k) =>
      if k >= |w.queue| then w
      else var (now, rest, effects) := Ran(w.data, w.queue, k); World(now, rest, w.log + effects)
    case Plan(path, first, slow, stop) => w.(data := NewTiming(w.data, path, first, slow, stop))
    case Receive => w.(data := w.data.(lastDeparted := None))
    case Path(path, size, first, stop) => w.(data := NewPath(w.data, path, size, first, stop))
    case Reserve(end) => if w.data.awaiting then w else w.(data := w.data.(rangeEnd := end))
  }

  ghost function ActAll(w: World, actions: seq<Action>): World
    decreases |actions|
  {
    if actions == [] then w else ActAll(Act(w, actions[0]), actions[1..])
  }

  ghost function Releases(log: seq<Effect>, plan: nat): nat {
    if log == [] then 0
    else Releases(log[..|log| - 1], plan) + if log[|log| - 1].Released? && log[|log| - 1].plan == plan then 1 else 0
  }

  ghost function Replans(log: seq<Effect>, plan: nat): nat {
    if log == [] then 0
    else Replans(log[..|log| - 1], plan) + if log[|log| - 1].Replanned? && log[|log| - 1].plan == plan then 1 else 0
  }

  /** At most one release and one replan for a plan version; the flags say exactly which the current plan has. */
  ghost predicate AccountedFor(d: Data, log: seq<Effect>, v: nat) {
    && Releases(log, v) <= 1 && Replans(log, v) <= 1
    && (v > d.plan ==> Releases(log, v) == 0 && Replans(log, v) == 0)
    && (v == d.plan ==> (d.approved <==> Releases(log, v) == 1) && (d.rejected <==> Replans(log, v) == 1))
  }

  /** So it is for all versions, and an awaited confirmation has not been answered. */
  ghost predicate Accounted(w: World) {
    && (w.data.awaiting ==> !w.data.approved && !w.data.rejected)
    && forall v: nat :: AccountedFor(w.data, w.log, v)
  }

  lemma {:induction false} CountOne(log: seq<Effect>, e: Effect, v: nat)
    ensures Releases(log + [e], v) == Releases(log, v) + if e.Released? && e.plan == v then 1 else 0
    ensures Replans(log + [e], v) == Replans(log, v) + if e.Replanned? && e.plan == v then 1 else 0
  {
    assert (log + [e])[..|log|] == log;
  }

  lemma {:induction false} RunAccounted(d: Data, queue: seq<Callback>, k: nat, log: seq<Effect>, v: nat)
    requires k < |queue| && AccountedFor(d, log, v)
    ensures AccountedFor(Ran(d, queue, k).0, log + Ran(d, queue, k).2, v)
  {
    var effects := Ran(d, queue, k).2;
    if effects == [] {
      assert log + effects == log;
    } else {
      CountOne(log, effects[0], v);
      assert effects == [effects[0]];
    }
  }

  lemma {:induction false} ActAccounted(w: World, a: Action)
    requires Accounted(w)
    ensures Accounted(Act(w, a))
  {
    forall v: nat ensures AccountedFor(Act(w, a).data, Act(w, a).log, v) {
      assert AccountedFor(w.data, w.log, v);
      if a.RunAt? && a.k < |w.queue| {
        RunAccounted(w.data, w.queue, a.k, w.log, v);
      }
    }
  }

  /** In every interleaving each plan version causes at most one release and at most one replan. */
  lemma {:induction false} AtMostOncePerPlan(w: World, actions: seq<Action>, v: nat)
    requires Accounted(w)
    ensures Accounted(ActAll(w, actions))
    ensures Releases(ActAll(w, actions).log, v) <= 1 && Replans(ActAll(w, actions).log, v) <= 1
    ensures var d := ActAll(w, actions).data;
      v == d.plan ==> (d.approved <==> Releases(ActAll(w, actions).log, v) == 1)
                      && (d.rejected <==> Replans(ActAll(w, actions).log, v) == 1)
    decreases |actions|
  {
    if actions != [] {
      ActAccounted(w, actions[0]);
      AtMostOncePerPlan(Act(w, actions[0]), actions[1..], v);
    } else {
      assert AccountedFor(w.data, w.log, v);
    }
  }

  lemma {:induction false} LogGrows(w: World, actions: seq<Action>, v: nat)
    ensures Releases(w.log, v) <= Releases(ActAll(w, actions).log, v)
    ensures Replans(w.log, v) <= Replans(ActAll(w, actions).log, v)
    decreases |actions|
  {
    if actions != [] {
      ActGrows(w, actions[0], v);
      LogGrows(Act(w, actions[0]), actions[1..], v);
    }
  }

  lemma {:induction false} ActGrows(w: World, a: Action, v: nat)
    ensures Releases(w.log, v) <= Releases(Act(w, a).log, v) && Replans(w.log, v) <= Replans(Act(w, a).log, v)
  {
    if a.RunAt? && a.k < |w.queue| {
      var effects := Ran(w.data, w.queue, a.k).2;
      if effects == [] {
        assert w.log + effects == w.log;
      } else {
        CountOne(w.log, effects[0], v);
        assert effects == [effects[0]];
      }
    }
  }

  /**
   A confirmation that runs for the current plan is answered exactly once, whatever happens before or
   after: an approval has released the plan, a rejection with some of the path left has replanned it.
   */
  lemma {:induction false} ConfirmationAnswered(w: World, k: nat, later: seq<Action>)
    requires Accounted(w) && k < |w.queue| && !Stale(w.data, w.queue[k])
    ensures var end := ActAll(Act(w, RunAt(k)), later).log;
      && (w.queue[k].Approve? ==> Releases(end, w.data.plan) == 1)
      && (w.queue[k].Reject? && w.queue[k].lastDeparted + 1 < w.data.pathSize ==> Replans(end, w.data.plan) == 1)
  {
    var now, v := Act(w, RunAt(k)), w.data.plan;
    ActAccounted(w, RunAt(k));
    assert AccountedFor(now.data, now.log, v);
    LogGrows(now, later, v);
    AtMostOncePerPlan(now, later, v);
  }

  lemma {:induction false} PlansCountUp(w: World, actions: seq<Action>)
    ensures w.data.plan <= ActAll(w, actions).data.plan
    decreases |actions|
  {
    if actions != [] {
      PlansCountUp(Act(w, actions[0]), actions[1..]);
    }
  }

  /** While the confirmation of a plan is awaited its range stands still, and only a new plan makes one awaited. */
  lemma {:induction false} AwaitedRangeStands(w: World, actions: seq<Action>)
    requires ActAll(w, actions).data.plan == w.data.plan && ActAll(w, actions).data.awaiting
    ensures w.data.awaiting && ActAll(w, actions).data.rangeEnd == w.data.rangeEnd
    decreases |actions|
  {
    if actions != [] {
      PlansCountUp(Act(w, actions[0]), actions[1..]);
      PlansCountUp(w, [actions[0]]);
      AwaitedRangeStands(Act(w, actions[0]), actions[1..]);
    }
  }
}
