/**
 A whole path: published ranges, new plans and the robot's reports in any order.  Batches reach the
 robot side by a direct call, so each is delivered before anything else happens.
 */
module PathRuns {
  import opened OrderMaps
  import opened Waypoints
  import opened LightSteps
  import opened CheckpointProtocol
  import opened CheckpointBatches

  datatype Happening =
    | Ranged(m: Published)
    | Replanned(first: nat, rejected: bool, slow: Option<nat>)
    | Reported(input: Input)

  /** Something happens, and the planner side sends a batch or not. */
  datatype Moment = Moment(happening: Happening, sent: Option<Dispatch>)

  ghost function ProgressAfter(p: Progress, h: Happening): Progress {
    match h
    case Ranged(m) => After(p, m)
    case Replanned(first, rejected, slow) => AfterReplan(p, first, rejected, slow)
    case Reported(_) => p
  }

  /** The planner side sends what it has to. */
  ghost predicate Sends(p: Progress, mo: Moment, version: nat) {
    match mo.happening
    case Ranged(m) => IssuedOne(p, m, mo.sent, version)
    case Replanned(first, _, slow) =>
      (slow.Some? ==> slow.value < p.end) && IssuedReplan(p, first, mo.sent, version)
    case Reported(input) => mo.sent.None? && IsReport(input)
  }

  /** The first checkpoint of a batch that carries permissions. */
  ghost function Lowest(p: Progress, h: Happening): nat {
    if h.Replanned? then h.first else p.next
  }

  ghost function Delivery(d: Dispatch): Input {
    Deliver(d.pathVersion, AsBatch(d))
  }

  ghost function InputOf(mo: Moment): Option<Input> {
    if mo.sent.Some? then Some(Delivery(mo.sent.value))
    else if mo.happening.Reported? then Some(mo.happening.input)
    else None
  }

  /** The batch, if one is sent, starts at or below the joint; one without permissions must not reach beyond it. */
  ghost predicate Joins(p: Progress, st: Light, mo: Moment) {
    mo.sent.Some? ==>
      if mo.sent.value.permissions == [] then mo.sent.value.standbyAt <= Joint(st)
      else Lowest(p, mo.happening) <= Joint(st)
  }

  lemma {:induction false} SentIs(p: Progress, mo: Moment, version: nat)
    requires Sends(p, mo, version) && mo.sent.Some?
    ensures var d, lo := mo.sent.value, Lowest(p, mo.happening);
      && d.pathVersion == version && lo < d.standbyAt
      && (d.permissions == [] || CoversExactly(d.permissions, lo, d.standbyAt))
  {
  }

  /** In any state, delivering what was sent feeds the light without a gap exactly when it joins on. */
  lemma {:induction false} DeliveryFed(p: Progress, st: Light, mo: Moment)
    requires Inv(st) && st.pathSize > 0 && Sends(p, mo, st.version) && mo.sent.Some?
    requires mo.sent.value.standbyAt <= |st.slots|
    ensures Fed(st, Delivery(mo.sent.value)) <==> Joins(p, st, mo)
  {
    var d, lo := mo.sent.value, Lowest(p, mo.happening);
    SentIs(p, mo, st.version);
    if d.permissions == [] {
      if Joint(st) < d.standbyAt {
        assert CheckpointProtocol.Lookup(AsBatch(d).checkpoints, Joint(st)).None?;
      }
    } else {
      DispatchGrants(d, lo, |st.slots|);
      if Joint(st) < lo {
        CheckpointsLookup(d.pathVersion, d.permissions, lo, d.standbyAt, Joint(st));
      }
    }
  }

  // ---------------------------------------------------------------- the planner side produces such moments

  datatype Command =
    | PublishRange(m: Published)
    | NewPlan(plan: seq<PlanWaypoint>, passing: (nat, nat) -> Time, now: Time, rejected: bool)
    | Hear(input: Input)

  /** Ranges end on the path, and every plan goes on to its last checkpoint. */
  ghost predicate OnPath(c: Command, last: nat) {
    match c
    case PublishRange(m) => m.end <= last
    case NewPlan(plan, _, _, _) => plan != [] && NonDecreasing(plan) && plan[|plan| - 1].graphIndex == last
    case Hear(input) => IsReport(input)
  }

  ghost predicate Answers(c: Command, h: Happening) {
    match c
    case PublishRange(m) => h == Ranged(m)
    case NewPlan(plan, _, _, rejected) =>
      plan != [] && h.Replanned? && h.first == plan[0].graphIndex && h.rejected == rejected
    case Hear(input) => h == Reported(input)
  }

  /** The planner side can serve any range up to the end of the path. */
  ghost predicate Ready(data: TrafficLightData, last: nat)
    reads data
  {
    && Spans(data.pending, data.nextDeparture, last) && Timed(data.departureTiming, data.nextDeparture, last)
    && data.rangeEnd <= last
  }

  method Serve(data: TrafficLightData, c: Command, ghost last: nat) returns (ghost mo: Moment)
    requires Ready(data, last) && OnPath(c, last)
    modifies data
    ensures Ready(data, last) && Answers(c, mo.happening) && data.pathVersion == old(data.pathVersion)
    ensures Sends(old(data.Progressed()), mo, data.pathVersion) && (mo.sent.Some? ==> mo.sent.value.standbyAt <= last)
    ensures data.Progressed() == ProgressAfter(old(data.Progressed()), mo.happening)
  {
    match c {
      case PublishRange(m) =>
        var believed, sent := data.NewRange(m);
        mo := Moment(Ranged(m), sent);
      case NewPlan(plan, passing, now, rejected) =>
        ghost var slow;
        var resend, sent;
        resend, sent, slow := data.UpdateTiming(plan, passing, now, rejected);
        mo := Moment(Replanned(plan[0].graphIndex, rejected, slow), sent);
      case Hear(input) =>
        mo := Moment(Reported(input), None);
    }
  }

  /** Any sequence of ranges, plans and reports along a path makes the planner side send such a run. */
  method ServePath(data: TrafficLightData, commands: seq<Command>, ghost last: nat) returns (ghost ms: seq<Moment>)
    requires Ready(data, last) && forall k :: 0 <= k < |commands| ==> OnPath(commands[k], last)
    modifies data
    ensures data.pathVersion == old(data.pathVersion) && Ready(data, last)
    ensures SendsAll(old(data.Progressed()), ms, data.pathVersion, last)
    ensures |ms| == |commands| && forall k :: 0 <= k < |ms| ==> Answers(commands[k], ms[k].happening)
    decreases |commands|
  {
    ms := [];
    if commands != [] {
      ghost var mo := Serve(data, commands[0], last);
      ghost var rest := ServePath(data, commands[1..], last);
      ms := [mo] + rest;
      assert ms[1..] == rest;
    }
  }

  // ---------------------------------------------------------------- any run, exactly

  /** The light after the delivery or the report, whether or not it leaves a gap. */
  ghost function Next(st: Light, mo: Moment): Light {
    if InputOf(mo).Some? then Step(st, InputOf(mo).value).0 else st
  }

  ghost predicate FitsNow(st: Light, mo: Moment) {
    mo.sent.Some? ==> mo.sent.value.standbyAt <= |st.slots|
  }

  ghost function Inputs(ms: seq<Moment>): seq<Input> {
    if ms == [] then [] else (if InputOf(ms[0]).Some? then [InputOf(ms[0]).value] else []) + Inputs(ms[1..])
  }

  /** The planner side follows its own rules throughout. */
  ghost predicate SendsAll(p: Progress, ms: seq<Moment>, version: nat, n: nat)
    decreases |ms|
  {
    ms == [] || (
      && Sends(p, ms[0], version) && (ms[0].sent.Some? ==> ms[0].sent.value.standbyAt <= n)
      && SendsAll(ProgressAfter(p, ms[0].happening), ms[1..], version, n))
  }

  /** Every batch joins on to what the robot holds when it arrives. */
  ghost predicate AllJoin(p: Progress, st: Light, ms: seq<Moment>)
    decreases |ms|
  {
    ms == [] || (
      Joins(p, st, ms[0]) && AllJoin(ProgressAfter(p, ms[0].happening), Next(st, ms[0]), ms[1..]))
  }

  lemma {:induction false} NextKeeps(p: Progress, st: Light, mo: Moment)
    requires Inv(st) && st.pathSize > 0 && Sends(p, mo, st.version) && FitsNow(st, mo)
    ensures InputOf(mo).Some? ==> (Fed(st, InputOf(mo).value) <==> Joins(p, st, mo))
    ensures Joins(p, st, mo) ==>
      var now := Next(st, mo);
      Inv(now) && now.version == st.version && now.pathSize == st.pathSize && |now.slots| == |st.slots|
  {
    if mo.sent.Some? {
      DeliveryFed(p, st, mo);
      if Fed(st, Delivery(mo.sent.value)) { StepIsSafe(st, Delivery(mo.sent.value)); }
    } else if mo.happening.Reported? {
      ReportKeepsExtent(st, mo.happening.input);
      StepIsSafe(st, mo.happening.input);
    }
  }

  /**
   Over a whole path, with new plans, rejections and any reports: the light is fed without a gap
   if and only if every batch joins on when it is sent.
   */
  lemma {:induction false} PathFedExactly(p: Progress, st: Light, ms: seq<Moment>)
    requires Inv(st) && st.pathSize > 0 && SendsAll(p, ms, st.version, |st.slots|)
    ensures FedRun(st, Inputs(ms)) <==> AllJoin(p, st, ms)
    decreases |ms|
  {
    if ms != [] {
      NextKeeps(p, st, ms[0]);
      var input := InputOf(ms[0]);
      if input.Some? {
        assert Inputs(ms)[0] == input.value && Inputs(ms)[1..] == Inputs(ms[1..]);
      } else {
        assert Inputs(ms) == Inputs(ms[1..]);
      }
      if Joins(p, st, ms[0]) {
        PathFedExactly(ProgressAfter(p, ms[0].happening), Next(st, ms[0]), ms[1..]);
      }
    }
  }

  // ---------------------------------------------------------------- a robot that keeps to its permissions

  /** The checkpoint a report says was departed last. */
  ghost function DepartedOf(input: Input): Option<nat>
    requires IsReport(input)
  {
    match input
    case Moving(cp) => Some(cp)
    case WaitAt(cp) => if cp == 0 then None else Some(cp - 1)
    case WaitAfter(cp) => Some(cp)
  }

  /** How many checkpoints the robot has left behind. */
  ghost function Behind(departed: Option<nat>): nat {
    if departed.Some? then departed.value + 1 else 0
  }

  /** The robot never reports behind its last departure, nor a departure that was never granted. */
  ghost predicate Disciplined(st: Light, input: Input) {
    IsReport(input) && Behind(st.lastDeparted) <= Behind(DepartedOf(input)) <= Joint(st)
  }

  /** A new plan starts no further than just after the robot's last departure. */
  ghost predicate Proper(st: Light, mo: Moment) {
    match mo.happening
    case Ranged(_) => true
    case Replanned(first, _, _) => first <= Behind(st.lastDeparted)
    case Reported(input) => Disciplined(st, input)
  }

  /** Robot and plans keep to their conditions, at least until a batch loses its permissions. */
  ghost predicate AllProper(st: Light, ms: seq<Moment>)
    decreases |ms|
  {
    ms == [] || (Proper(st, ms[0]) && (DropsBeyond(st, ms[0]) || AllProper(Next(st, ms[0]), ms[1..])))
  }

  /** What the planner goes on from was granted or left behind, and what was left behind is still granted. */
  ghost predicate InStep(p: Progress, st: Light) {
    && Inv(st) && st.pathSize > 0
    && Behind(st.lastDeparted) <= st.standbyAt
    && (p.next <= NewestStandby(st) || p.next <= Behind(st.lastDeparted))
  }

  /** A disciplined report is remembered, and what it left behind stays granted. */
  lemma {:induction false} ReportLeaves(st: Light, input: Input)
    requires Inv(st) && st.pathSize > 0 && Disciplined(st, input)
    ensures var now := Step(st, input).0;
      now.lastDeparted == DepartedOf(input) && Behind(now.lastDeparted) <= now.standbyAt && SameExtent(st, now)
  {
    ReportKeepsExtent(st, input);
    match input {
      case Moving(cp) => MovingLeaves(st, cp);
      case WaitAt(cp) => WaitAtLeaves(st, cp);
      case WaitAfter(cp) => WaitAfterLeaves(st, cp);
    }
  }

  lemma {:induction false} MovingLeaves(st: Light, cp: nat)
    requires Inv(st) && st.pathSize > 0 && Disciplined(st, Moving(cp))
    ensures var now := MovingFrom(st, cp).0; now.lastDeparted == Some(cp) && Behind(Some(cp)) <= now.standbyAt
  {
    var at := st.(lastDeparted := Some(cp), lastReached := if st.lastReached < cp then cp else st.lastReached);
    assert Inv(at);
    if at.received.Some? { AcceptKeeps(at); }
  }

  lemma {:induction false} WaitAtLeaves(st: Light, cp: nat)
    requires Inv(st) && st.pathSize > 0 && Disciplined(st, WaitAt(cp))
    ensures var now, d := WaitingAt(st, cp).0, DepartedOf(WaitAt(cp));
      now.lastDeparted == d && Behind(d) <= now.standbyAt
  {
    WaitLeaves(st, cp, DepartedOf(WaitAt(cp)));
  }

  lemma {:induction false} WaitAfterLeaves(st: Light, cp: nat)
    requires Inv(st) && st.pathSize > 0 && Disciplined(st, WaitAfter(cp))
    ensures var now, d := WaitingAfter(st, cp).0, DepartedOf(WaitAfter(cp));
      now.lastDeparted == d && Behind(d) <= now.standbyAt
  {
    WaitLeaves(st, cp, DepartedOf(WaitAfter(cp)));
  }

  lemma {:induction false} WaitLeaves(st: Light, cp: nat, d: Option<nat>)
    requires Inv(st) && st.pathSize > 0 && Behind(d) <= Joint(st)
    ensures var at := st.(lastReached := if st.lastReached < cp then cp else st.lastReached);
      var now := HandleWaiting(at, d).0;
      now.lastDeparted == d && Behind(d) <= now.standbyAt
  {
    var at := st.(lastReached := if st.lastReached < cp then cp else st.lastReached, lastDeparted := d);
    assert Inv(at);
    if at.received.Some? { AcceptKeeps(at); }
  }

  /** Both sides stay in step, and a batch that carries permissions always joins on. */
  lemma {:induction false} StepKeepsInStep(p: Progress, st: Light, mo: Moment)
    requires InStep(p, st) && Sends(p, mo, st.version) && FitsNow(st, mo) && Proper(st, mo)
    ensures Joins(p, st, mo) <==> !DropsBeyond(st, mo)
    ensures Joins(p, st, mo) ==> InStep(ProgressAfter(p, mo.happening), Next(st, mo))
  {
    NextKeeps(p, st, mo);
    if mo.sent.Some? {
      SentIs(p, mo, st.version);
    } else if mo.happening.Reported? {
      ReportLeaves(st, mo.happening.input);
    }
  }

  /** A batch that lost its permissions because the range is a single point, beyond all that was granted. */
  ghost predicate DropsBeyond(st: Light, mo: Moment) {
    mo.sent.Some? && mo.sent.value.permissions == [] && Joint(st) < mo.sent.value.standbyAt
  }

  ghost predicate NoneDropped(st: Light, ms: seq<Moment>)
    decreases |ms|
  {
    ms == [] || (!DropsBeyond(st, ms[0]) && NoneDropped(Next(st, ms[0]), ms[1..]))
  }

  /**
   Planner and robot over a whole path.  If the robot never reports behind its last departure nor
   beyond what it was granted, and new plans start no further than it has come, then through all
   replans, rejections and ranges the light is fed without a gap if and only if no single-point
   range reaches beyond what was granted.
   */
  lemma {:induction false} PathStaysInStep(p: Progress, st: Light, ms: seq<Moment>)
    requires InStep(p, st) && SendsAll(p, ms, st.version, |st.slots|) && AllProper(st, ms)
    ensures AllJoin(p, st, ms) <==> NoneDropped(st, ms)
    ensures FedRun(st, Inputs(ms)) <==> NoneDropped(st, ms)
    decreases |ms|
  {
    PathFedExactly(p, st, ms);
    if ms != [] {
      NextKeeps(p, st, ms[0]);
      StepKeepsInStep(p, st, ms[0]);
      if Joins(p, st, ms[0]) {
        PathStaysInStep(ProgressAfter(p, ms[0].happening), Next(st, ms[0]), ms[1..]);
      }
    }
  }

  /** Then every delivery and report of the path causes no fault and departs only with permission. */
  lemma {:induction false} PathIsSafe(p: Progress, st: Light, ms: seq<Moment>, k: nat)
    requires InStep(p, st) && SendsAll(p, ms, st.version, |st.slots|) && AllProper(st, ms)
    requires NoneDropped(st, ms) && k < |Inputs(ms)|
    ensures FedRun(st, Inputs(ms)[..k]) && Fed(StateAfter(st, Inputs(ms)[..k]), Inputs(ms)[k])
    ensures var (now, r, fired) := Step(StateAfter(st, Inputs(ms)[..k]), Inputs(ms)[k]);
      Inv(now) && r != Some(Fault) && SafeEvents(now, Inputs(ms)[k], fired)
  {
    PathStaysInStep(p, st, ms);
    RunIsSafe(st, Inputs(ms), k);
  }

  /** A new path starts in step. */
  lemma {:induction false} PathStartsInStep(st: Light, size: nat, version: nat)
    requires size >= 2
    ensures InStep(Progress(0, 0, 0), FollowNewPath(st, size, version))
  {
  }
}
