/**
 Why the robot must never report behind its last departure: a path from its start on which all goes
 well, and the same path with one report that goes back.
 */
module GoingBack {
  import opened Waypoints
  import opened LightSteps
  import opened CheckpointProtocol
  import opened CheckpointBatches
  import opened PathRuns

  /** The planner side keeps to its rules, and so do robot and plans; no batch loses its permissions. */
  ghost predicate GoesWell(p: Progress, st: Light, ms: seq<Moment>) {
    InStep(p, st) && SendsAll(p, ms, st.version, |st.slots|) && AllProper(st, ms) && NoneDropped(st, ms)
  }

  /** The planner side keeps to its rules, but a gap is left, and moving from `cp` afterwards trips the assertion. */
  ghost predicate GoesWrong(p: Progress, st: Light, ms: seq<Moment>, cp: nat) {
    && Inv(st) && st.pathSize > 0 && SendsAll(p, ms, st.version, |st.slots|)
    && !FedRun(st, Inputs(ms)) && MovingFrom(StateAfter(st, Inputs(ms)), cp).1 == Fault
  }

  /** A moment that takes both sides from one point to the next and is as it should be. */
  ghost predicate Leads(p: Progress, st: Light, mo: Moment, q: Progress, now: Light) {
    && InStep(p, st) && Sends(p, mo, st.version) && FitsNow(st, mo) && Proper(st, mo) && !DropsBeyond(st, mo)
    && q == ProgressAfter(p, mo.happening) && now == Next(st, mo)
  }

  lemma {:induction false} OneMore(p: Progress, st: Light, mo: Moment, q: Progress, now: Light, ms: seq<Moment>)
    requires Leads(p, st, mo, q, now) && GoesWell(q, now, ms)
    ensures GoesWell(p, st, [mo] + ms)
  {
    NextKeeps(p, st, mo);
    StepKeepsInStep(p, st, mo);
    assert ([mo] + ms)[1..] == ms;
  }

  lemma {:induction false} OneMoreWrong(p: Progress, st: Light, mo: Moment, q: Progress, now: Light, ms: seq<Moment>,
                                        cp: nat)
    requires Leads(p, st, mo, q, now) && GoesWrong(q, now, ms, cp)
    ensures GoesWrong(p, st, [mo] + ms, cp)
  {
    NextKeeps(p, st, mo);
    StepKeepsInStep(p, st, mo);
    var all := [mo] + ms;
    assert all[1..] == ms;
    if InputOf(mo).Some? {
      assert Inputs(all)[1..] == Inputs(ms);
    } else {
      assert Inputs(all) == Inputs(ms);
    }
  }

  /** Where a light stands after some part of a path of seven checkpoints. */
  ghost predicate Stands(st: Light, standbyAt: nat, unprocessed: Option<nat>, departed: Option<nat>) {
    && Inv(st) && st.pathSize == 7 && |st.slots| == 6 && st.standbyAt == standbyAt && st.lastDeparted == departed
    && (if unprocessed.Some? then st.received.Some? && st.received.value.standbyAt == unprocessed.value
        else st.received.None?)
  }

  lemma {:induction false} Receives(st: Light, d: Dispatch, lo: nat, standbyAt: nat, unprocessed: Option<nat>,
                                    departed: Option<nat>)
    requires Stands(st, standbyAt, unprocessed, departed) && lo <= Joint(st) && d.standbyAt <= 6
    requires d.pathVersion == st.version && CoversExactly(d.permissions, lo, d.standbyAt)
    ensures Stands(Step(st, Delivery(d)).0, standbyAt, Some(d.standbyAt), departed)
    ensures Fed(st, Delivery(d)) && Step(st, Delivery(d)).0.version == st.version
  {
    DispatchGrants(d, lo, |st.slots|);
    StepIsSafe(st, Delivery(d));
  }

  /** The robot departs from checkpoint 2 with five granted. */
  lemma {:induction false} Departs(st: Light)
    requires Stands(st, 0, Some(5), None)
    ensures var now := Step(st, Moving(2)).0; Stands(now, 5, None, Some(2)) && now.version == st.version
  {
    MovingIsSafe(st, 2);
    MovingMeans(st, 2);
    var at := st.(lastDeparted := Some(2), lastReached := if st.lastReached < 2 then 2 else st.lastReached);
    assert Inv(at);
    AcceptKeeps(at);
  }

  /** It rejects a batch that ends at 2. */
  lemma {:induction false} Rejects(st: Light)
    requires Stands(st, 5, Some(2), Some(2))
    ensures var now := Step(st, WaitAfter(2)).0; Stands(now, 5, Some(2), Some(2)) && now.version == st.version
  {
    WaitAfterIsSafe(st, 2);
    WaitAfterMeans(st, 2);
  }

  /** Going back to 1 accepts the rejected batch after all; the next batch then leaves a gap in front of 3. */
  lemma {:induction false} GapAfterGoingBack(st: Light, d: Dispatch)
    requires Stands(st, 5, Some(2), Some(2)) && d.pathVersion == st.version
    requires d.standbyAt == 5 && CoversExactly(d.permissions, 3, 5)
    ensures Fed(st, Delivery(d)) && !Disciplined(st, WaitAt(1))
    ensures var back := Step(st, WaitAt(1)).0;
      && Inv(back) && back.version == st.version && !Fed(back, Delivery(d))
      && MovingFrom(Step(back, Delivery(d)).0, 2).1 == Fault
  {
    DispatchGrants(d, 3, 6);
    WaitAtIsSafe(st, 1);
    WaitAtMeans(st, 1);
    var back := WaitingAt(st, 1).0;
    CheckpointsLookup(d.pathVersion, d.permissions, 3, 5, 2);
    GapFaultsExactly(back, AsBatch(d), 2);
  }

  /** The moments of the story below, up to the plan that starts at 3. */
  datatype Story = Story(d1: Dispatch, slow1: Option<nat>, d2: Dispatch, slow2: Option<nat>, d3: Dispatch) {
    /** Five checkpoints are reserved, or the range shrinks to two. */
    ghost function Range(end: nat): Happening { Ranged(Published(true, 0, end, false, false, Some(4))) }

    ghost function Last(): Moment { Moment(Range(5), Some(d3)) }

    /** The moments, counted from the end. */
    ghost function Told(k: nat): Moment
      requires 1 <= k <= 6
    {
      match k
      case 6 => Moment(Range(5), Some(d1))
      case 5 => Moment(Reported(Moving(2)), None)
      case 4 => Moment(Range(2), None)
      case 3 => Moment(Replanned(1, false, slow1), Some(d2))
      case 2 => Moment(Reported(WaitAfter(2)), None)
      case 1 => Moment(Replanned(3, true, slow2), None)
    }

    /** The last `k` moments, and what comes after them. */
    ghost function After(k: nat, rest: seq<Moment>): seq<Moment>
      requires k <= 6
      decreases k
    {
      if k == 0 then rest else [Told(k)] + After(k - 1, rest)
    }

    /** The dispatches are what the planner side sends. */
    ghost predicate Sent(version: nat) {
      && (slow1.Some? ==> slow1.value < 2) && (slow2.Some? ==> slow2.value < 2)
      && Sends(Progress(0, 0, 0), Moment(Range(5), Some(d1)), version)
      && Sends(Progress(0, 2, 5), Moment(Replanned(1, false, slow1), Some(d2)), version)
      && Sends(Progress(0, 2, 3), Last(), version)
    }
  }

  /** Where planner and robot stand at the seven points of the story. */
  datatype Course = Course(s0: Light, s1: Light, s2: Light, s3: Light, s4: Light) {
    ghost predicate Follows(story: Story, version: nat) {
      && s0.version == s1.version == s2.version == s3.version == s4.version == version && story.Sent(version)
      && Stands(s0, 0, None, None)
      && s1 == Step(s0, Delivery(story.d1)).0 && Stands(s1, 0, Some(5), None)
      && s2 == Step(s1, Moving(2)).0 && Stands(s2, 5, None, Some(2))
      && s3 == Step(s2, Delivery(story.d2)).0 && Stands(s3, 5, Some(2), Some(2))
      && s4 == Step(s3, WaitAfter(2)).0 && Stands(s4, 5, Some(2), Some(2))
    }

    /** Each moment leads from one point to the next. */
    ghost predicate Linked(story: Story) {
      && Leads(Progress(0, 0, 0), s0, story.Told(6), Progress(0, 5, 5), s1)
      && Leads(Progress(0, 5, 5), s1, story.Told(5), Progress(0, 5, 5), s2)
      && Leads(Progress(0, 5, 5), s2, story.Told(4), Progress(0, 2, 5), s2)
      && Leads(Progress(0, 2, 5), s2, story.Told(3), Progress(0, 2, 2), s3)
      && Leads(Progress(0, 2, 2), s3, story.Told(2), Progress(0, 2, 2), s4)
      && Leads(Progress(0, 2, 2), s4, story.Told(1), Progress(0, 2, 3), s4)
    }
  }

  lemma {:induction false} StoryCourse(start: Light, version: nat, story: Story) returns (course: Course)
    requires story.Sent(version)
    ensures course.s0 == FollowNewPath(start, 7, version) && course.Follows(story, version)
  {
    var s0 := FollowNewPath(start, 7, version);
    var s1 := Step(s0, Delivery(story.d1)).0;
    Receives(s0, story.d1, 0, 0, None, None);
    var s2 := Step(s1, Moving(2)).0;
    Departs(s1);
    var s3 := Step(s2, Delivery(story.d2)).0;
    Receives(s2, story.d2, 1, 5, None, Some(2));
    Rejects(s3);
    course := Course(s0, s1, s2, s3, Step(s3, WaitAfter(2)).0);
  }

  lemma {:induction false} FirstHalfLinked(course: Course, story: Story, version: nat)
    requires course.Follows(story, version)
    ensures Leads(Progress(0, 0, 0), course.s0, story.Told(6), Progress(0, 5, 5), course.s1)
    ensures Leads(Progress(0, 5, 5), course.s1, story.Told(5), Progress(0, 5, 5), course.s2)
    ensures Leads(Progress(0, 5, 5), course.s2, story.Told(4), Progress(0, 2, 5), course.s2)
  {
  }

  lemma {:induction false} StoryLinked(course: Course, story: Story, version: nat)
    requires course.Follows(story, version)
    ensures course.Linked(story)
  {
    FirstHalfLinked(course, story, version);
  }

  /** The end of a run decides: what goes well after the story has gone well with it. */
  lemma {:induction false} StoryThenWell(course: Course, story: Story, rest: seq<Moment>)
    requires course.Linked(story) && GoesWell(Progress(0, 2, 3), course.s4, rest)
    ensures GoesWell(Progress(0, 0, 0), course.s0, story.After(6, rest))
  {
    OneMore(Progress(0, 2, 2), course.s4, story.Told(1), Progress(0, 2, 3), course.s4, story.After(0, rest));
    OneMore(Progress(0, 2, 2), course.s3, story.Told(2), Progress(0, 2, 2), course.s4, story.After(1, rest));
    OneMore(Progress(0, 2, 5), course.s2, story.Told(3), Progress(0, 2, 2), course.s3, story.After(2, rest));
    OneMore(Progress(0, 5, 5), course.s2, story.Told(4), Progress(0, 2, 5), course.s2, story.After(3, rest));
    OneMore(Progress(0, 5, 5), course.s1, story.Told(5), Progress(0, 5, 5), course.s2, story.After(4, rest));
    OneMore(Progress(0, 0, 0), course.s0, story.Told(6), Progress(0, 5, 5), course.s1, story.After(5, rest));
  }

  lemma {:induction false} StoryThenWrong(course: Course, story: Story, rest: seq<Moment>)
    requires course.Linked(story) && GoesWrong(Progress(0, 2, 3), course.s4, rest, 2)
    ensures GoesWrong(Progress(0, 0, 0), course.s0, story.After(6, rest), 2)
  {
    OneMoreWrong(Progress(0, 2, 2), course.s4, story.Told(1), Progress(0, 2, 3), course.s4, story.After(0, rest), 2);
    OneMoreWrong(Progress(0, 2, 2), course.s3, story.Told(2), Progress(0, 2, 2), course.s4, story.After(1, rest), 2);
    OneMoreWrong(Progress(0, 2, 5), course.s2, story.Told(3), Progress(0, 2, 2), course.s3, story.After(2, rest), 2);
    OneMoreWrong(Progress(0, 5, 5), course.s2, story.Told(4), Progress(0, 2, 5), course.s2, story.After(3, rest), 2);
    OneMoreWrong(Progress(0, 5, 5), course.s1, story.Told(5), Progress(0, 5, 5), course.s2, story.After(4, rest), 2);
    OneMoreWrong(Progress(0, 0, 0), course.s0, story.Told(6), Progress(0, 5, 5), course.s1, story.After(5, rest), 2);
  }

  lemma {:induction false} WellEnd(st: Light, story: Story)
    requires Stands(st, 5, Some(2), Some(2)) && story.Sent(st.version)
    ensures GoesWell(Progress(0, 2, 3), st, [story.Last()])
  {
    var last := story.Last();
    GapAfterGoingBack(st, story.d3);
    StepKeepsInStep(Progress(0, 2, 3), st, last);
    assert [last][1..] == [];
  }

  lemma {:induction false} WrongEnd(st: Light, story: Story, back: Moment)
    requires Stands(st, 5, Some(2), Some(2)) && story.Sent(st.version) && back == Moment(Reported(WaitAt(1)), None)
    ensures GoesWrong(Progress(0, 2, 3), st, [back, story.Last()], 2)
  {
    var last, now := story.Last(), Step(st, WaitAt(1)).0;
    GapAfterGoingBack(st, story.d3);
    assert [back, last][1..] == [last] && [last][1..] == [];
    assert SendsAll(Progress(0, 2, 3), [last], st.version, 6);
    assert Sends(Progress(0, 2, 3), back, st.version);
    EndInputs(back, last);
    var x, y := InputOf(back).value, InputOf(last).value;
    assert [x, y][1..] == [y] && [y][1..] == [];
    assert StateAfter(now, [y]) == StateAfter(Step(now, y).0, []);
    assert StateAfter(st, [x, y]) == Step(now, y).0;
  }

  lemma {:induction false} EndInputs(back: Moment, last: Moment)
    requires InputOf(back).Some? && InputOf(last).Some?
    ensures Inputs([back, last]) == [InputOf(back).value, InputOf(last).value]
  {
    assert [back, last][1..] == [last] && [last][1..] == [];
    assert Inputs([last]) == [InputOf(last).value] + Inputs([]);
  }

  /**
   A path of seven checkpoints from its start.  Five are reserved and the robot departs from 2; the
   range shrinks to 2 and a plan made before that departure was known starts at 1; the robot rejects
   the batch; the next plan starts at 3, and five are reserved again.  All goes well, and every
   moment is proper.  But if the robot goes back and waits at 1 before the last range, that batch
   leaves a gap, and moving from 2 trips the assertion.
   */
  lemma {:induction false} GoingBackBreaks(start: Light, version: nat, story: Story)
    requires story.Sent(version)
    ensures var st, back := FollowNewPath(start, 7, version), Moment(Reported(WaitAt(1)), None);
      && GoesWell(Progress(0, 0, 0), st, story.After(6, [story.Last()]))
      && FedRun(st, Inputs(story.After(6, [story.Last()])))
      && GoesWrong(Progress(0, 0, 0), st, story.After(6, [back, story.Last()]), 2)
  {
    var course := StoryCourse(start, version, story);
    var back := Moment(Reported(WaitAt(1)), None);
    StoryLinked(course, story, version);
    WellEnd(course.s4, story);
    StoryThenWell(course, story, [story.Last()]);
    WrongEnd(course.s4, story, back);
    StoryThenWrong(course, story, [back, story.Last()]);
    PathStaysInStep(Progress(0, 0, 0), FollowNewPath(start, 7, version), story.After(6, [story.Last()]));
  }

  function PlanFrom(first: nat): (plan: seq<PlanWaypoint>)
    requires first <= 6
    ensures |plan| == 7 - first && forall k :: 0 <= k < |plan| ==> plan[k].graphIndex == first + k
  {
    seq(7 - first, k requires 0 <= k < 7 - first => PlanWaypoint(first + k, 10 * k))
  }

  /** The planner side does send these batches. */
  method TellStory(start: Light) returns (ghost story: Story)
    ensures story.Sent(1)
  {
    var timing := map[0 := 0, 1 := 0, 2 := 0, 3 := 0, 4 := 0, 5 := 0, 6 := 0];
    var data := new TrafficLightData(1, PlanFrom(0), 0, timing);
    var five, two := Published(true, 0, 5, false, false, Some(4)), Published(true, 0, 2, false, false, Some(4));
    ghost var a := Serve(data, PublishRange(five), 6);
    ghost var b := Serve(data, PublishRange(two), 6);
    ghost var c := Serve(data, NewPlan(PlanFrom(1), (i, k) => 0, 0, false), 6);
    ghost var d := Serve(data, NewPlan(PlanFrom(3), (i, k) => 0, 0, true), 6);
    ghost var e := Serve(data, PublishRange(five), 6);
    story := Story(a.sent.value, c.happening.slow, c.sent.value, d.happening.slow, e.sent.value);
  }
}
