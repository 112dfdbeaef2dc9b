/**
 The planner side of the traffic-light protocol: turning a plan and a reserved
 range into a batch of departure permissions for the robot.
 */
module CheckpointBatches {
  import opened OrderMaps
  import opened Waypoints
  import opened LightSteps
  import opened CheckpointProtocol

  /** A plan waypoint on the path: which path waypoint it belongs to, and when it is reached. */
  datatype PlanWaypoint = PlanWaypoint(graphIndex: nat, time: Time)

  /** A permission as it is built: the checkpoint, its departure time, and the plan that spans it. */
  datatype Permission = Permission(index: nat, time: Time, waypoints: seq<PlanWaypoint>)

  datatype Dispatch = Dispatch(pathVersion: nat, permissions: seq<Permission>, standbyAt: nat)

  ghost predicate NonDecreasing(g: seq<PlanWaypoint>) {
    forall i, j :: 0 <= i <= j < |g| ==> g[i].graphIndex <= g[j].graphIndex
  }

  /** The plan starts at or before the next departure and reaches the end of the range. */
  ghost predicate Spans(g: seq<PlanWaypoint>, from: nat, to: nat) {
    && g != [] && NonDecreasing(g)
    && g[0].graphIndex <= from && to <= g[|g| - 1].graphIndex
  }

  ghost predicate Timed(timing: map<nat, Time>, from: nat, to: nat) {
    forall i :: from <= i < to ==> i in timing
  }

  /** A permission carries at least two plan waypoints, from its checkpoint or before to the next or beyond. */
  ghost predicate WellSpanned(p: Permission) {
    && |p.waypoints| >= 2
    && p.waypoints[0].graphIndex <= p.index < p.waypoints[|p.waypoints| - 1].graphIndex
  }

  /** Exactly the checkpoints from `from` up to `to`, in order, each spanned by the plan. */
  ghost predicate CoversExactly(ps: seq<Permission>, from: nat, to: nat) {
    && |ps| == (if from < to then to - from else 0)
    && forall k :: 0 <= k < |ps| ==> ps[k].index == from + k && WellSpanned(ps[k])
  }

  /**
   What of the plan belongs to one departure: from the last waypoint before or on the checkpoint, on
   through all waypoints of the next checkpoint, or, when there are none, to the first one beyond.
   */
  ghost predicate Stretch(plan: seq<PlanWaypoint>, first: nat, i: int, j: int) {
    0 <= i && i + 2 <= j <= |plan| &&
    var d := MaxNat(first, plan[i].graphIndex);
    && (plan[i].graphIndex < first ==> plan[i + 1].graphIndex > first)
    && (forall k :: i <= k < j - 1 ==> plan[k].graphIndex <= d + 1)
    && (j < |plan| ==> plan[j].graphIndex > d + 1)
    && (plan[j - 2].graphIndex <= d || plan[j - 1].graphIndex <= d + 1)
  }

  /** The waypoints are such a stretch of the plan; the time is that of the checkpoint the stretch departs from. */
  ghost predicate TakenFrom(p: Permission, plan: seq<PlanWaypoint>, timing: map<nat, Time>, first: nat) {
    && p.waypoints != []
    && (var d := MaxNat(first, p.waypoints[0].graphIndex); d <= p.index && d in timing && p.time == timing[d])
    && exists i, j :: Stretch(plan, first, i, j) && p.waypoints == plan[i..j]
  }

  ghost predicate AllTakenFrom(ps: seq<Permission>, plan: seq<PlanWaypoint>, timing: map<nat, Time>, first: nat) {
    forall k :: 0 <= k < |ps| ==> TakenFrom(ps[k], plan, timing, first)
  }

  ghost predicate OnPlan(plan: seq<PlanWaypoint>, index: nat) {
    exists n :: 0 <= n < |plan| && plan[n].graphIndex == index
  }

  /** A permission for a checkpoint of the plan departs there, with that checkpoint's own time. */
  ghost predicate DepartsAtIndex(p: Permission, plan: seq<PlanWaypoint>, timing: map<nat, Time>) {
    OnPlan(plan, p.index) ==>
      p.waypoints != [] && p.waypoints[0].graphIndex == p.index && p.index in timing && p.time == timing[p.index]
  }

  /** Only its last waypoint lies beyond the checkpoint after the one it departs from. */
  ghost predicate EndsAtNext(p: Permission, first: nat) {
    p.waypoints != [] &&
    forall k :: 0 <= k < |p.waypoints| - 1 ==>
      p.waypoints[k].graphIndex <= MaxNat(first, p.waypoints[0].graphIndex) + 1
  }

  /** What is left of a plan once a range is sent: from the last waypoint inside the range on. */
  ghost predicate StillNeeded(plan: seq<PlanWaypoint>, end: nat, rest: seq<PlanWaypoint>) {
    && rest != [] && |rest| <= |plan| && rest == plan[|plan| - |rest|..]
    && rest[0].graphIndex < end && (|rest| > 1 ==> rest[1].graphIndex >= end)
  }

  ghost predicate OwnDepartures(ps: seq<Permission>, plan: seq<PlanWaypoint>, timing: map<nat, Time>, first: nat) {
    forall k :: 0 <= k < |ps| ==> DepartsAtIndex(ps[k], plan, timing) && EndsAtNext(ps[k], first)
  }

  lemma {:induction false} TakenDeparts(p: Permission, plan: seq<PlanWaypoint>, timing: map<nat, Time>, first: nat)
    requires TakenFrom(p, plan, timing, first) && WellSpanned(p) && NonDecreasing(plan)
    ensures DepartsAtIndex(p, plan, timing) && EndsAtNext(p, first)
  {
    var i, j :| Stretch(plan, first, i, j) && p.waypoints == plan[i..j];
    assert forall k :: 0 <= k < j - i ==> p.waypoints[k] == plan[i + k];
    if OnPlan(plan, p.index) {
      var n :| 0 <= n < |plan| && plan[n].graphIndex == p.index;
      var d := MaxNat(first, plan[i].graphIndex);
      assert p.index < plan[j - 1].graphIndex;
      assert n <= j - 2;
      assert plan[n].graphIndex <= plan[j - 2].graphIndex;
      assert n <= i ==> plan[n].graphIndex <= plan[i].graphIndex;
      assert n > i ==> plan[i + 1].graphIndex <= plan[n].graphIndex;
    }
  }

  function MaxNat(x: nat, y: nat): nat { if x < y then y else x }
  function MinNat(x: nat, y: nat): nat { if x < y then x else y }

  class TrafficLightData {
    var pathVersion: nat
    var pending: seq<PlanWaypoint>
    var nextDeparture: nat
    var rangeBegin: nat
    var rangeEnd: nat
    var departureTiming: map<nat, Time>

    ghost function Progressed(): Progress
      reads this
    {
      Progress(rangeBegin, rangeEnd, nextDeparture)
    }

    constructor (version: nat, plan: seq<PlanWaypoint>, first: nat, timing: map<nat, Time>)
      ensures pathVersion == version && pending == plan && nextDeparture == first
      ensures rangeBegin == 0 && rangeEnd == 0 && departureTiming == timing
    {
      pathVersion, pending, nextDeparture, departureTiming := version, plan, first, timing;
      rangeBegin, rangeEnd := 0, 0;
    }

    /** Builds and sends the permissions of the reserved range that have not been sent yet. */
    method SendCheckpoints() returns (sent: Option<Dispatch>)
      requires Spans(pending, nextDeparture, rangeEnd)
      requires Timed(departureTiming, nextDeparture, rangeEnd)
      modifies this`pending, this`nextDeparture
      ensures nextDeparture == MaxNat(old(nextDeparture), rangeEnd)
      ensures sent.Some? <==> old(nextDeparture) < rangeEnd
      ensures sent.Some? ==> sent.value.pathVersion == pathVersion && sent.value.standbyAt == rangeEnd
      ensures sent.Some? && rangeBegin != rangeEnd ==>
        CoversExactly(sent.value.permissions, old(nextDeparture), rangeEnd)
      ensures sent.Some? && rangeBegin == rangeEnd ==> sent.value.permissions == []
      ensures sent.Some? ==> AllTakenFrom(sent.value.permissions, old(pending), departureTiming, old(nextDeparture))
      ensures sent.Some? ==> OwnDepartures(sent.value.permissions, old(pending), departureTiming, old(nextDeparture))
      ensures if sent.Some? then StillNeeded(old(pending), rangeEnd, pending) else pending == old(pending)
      ensures forall to :: Spans(old(pending), old(nextDeparture), to) ==> Spans(pending, nextDeparture, to)
    {
      var permissions := BuildPermissions(nextDeparture);
      var first := nextDeparture;
      nextDeparture := MaxNat(rangeEnd, nextDeparture);
      if permissions == [] {
        return None;
      }
      var cut := EndPlanIndex();
      assert cut < |pending|;
      SuffixSpans(pending, cut, first, rangeEnd);
      pending := pending[cut..];
      if rangeBegin == rangeEnd {
        permissions := [];
      }
      sent := Some(Dispatch(pathVersion, permissions, rangeEnd));
    }

    /** The nested loops over the plan that collect the permissions. */
    method BuildPermissions(first: nat) returns (permissions: seq<Permission>)
      requires Spans(pending, first, rangeEnd)
      requires Timed(departureTiming, first, rangeEnd)
      ensures CoversExactly(permissions, first, rangeEnd)
      ensures AllTakenFrom(permissions, pending, departureTiming, first)
      ensures OwnDepartures(permissions, pending, departureTiming, first)
    {
      permissions := [];
      var current := first;
      var next := LastAtOrBefore(current);
      while pending[next].graphIndex < rangeEnd
        invariant 0 <= next < |pending| && pending[next].graphIndex <= current
        invariant pending[next].graphIndex < rangeEnd ==> first <= current
        invariant CoversExactly(permissions, first, MinNat(current, rangeEnd))
        invariant AllTakenFrom(permissions, pending, departureTiming, first)
        invariant current == MaxNat(first, pending[next].graphIndex) || rangeEnd <= pending[next].graphIndex
        invariant pending[next].graphIndex < first && next + 1 < |pending| ==> pending[next + 1].graphIndex > first
        decreases |pending| - next
      {
        var end := SegmentEnd(next, current);
        var waypoints := pending[next..end];
        var last := MinNat(waypoints[|waypoints| - 1].graphIndex, rangeEnd);
        assert Stretch(pending, first, next, end);
        permissions := AddPermissions(permissions, first, current, last, waypoints);
        next := end - 1;
        current := pending[next].graphIndex;
      }
      forall k | 0 <= k < |permissions|
        ensures DepartsAtIndex(permissions[k], pending, departureTiming) && EndsAtNext(permissions[k], first)
      {
        TakenDeparts(permissions[k], pending, departureTiming, first);
      }
    }

    /** Position of the last plan waypoint that does not lie beyond the checkpoint. */
    method LastAtOrBefore(checkpoint: nat) returns (next: nat)
      requires pending != [] && NonDecreasing(pending) && pending[0].graphIndex <= checkpoint
      ensures next < |pending| && pending[next].graphIndex <= checkpoint
      ensures next + 1 < |pending| ==> pending[next + 1].graphIndex > checkpoint
    {
      var n := 0;
      while n < |pending| && pending[n].graphIndex <= checkpoint
        invariant n <= |pending|
        invariant n > 0 ==> pending[n - 1].graphIndex <= checkpoint
        invariant n == 0 ==> pending[0].graphIndex <= checkpoint
      {
        n := n + 1;
      }
      next := n - 1;
    }

    /** One past the last plan waypoint that belongs to the departure from `current`. */
    method SegmentEnd(next: nat, current: nat) returns (end: nat)
      requires next < |pending| && NonDecreasing(pending)
      requires pending[next].graphIndex <= current
      requires pending[next].graphIndex < rangeEnd <= pending[|pending| - 1].graphIndex
      ensures next + 1 < end <= |pending|
      ensures pending[end - 1].graphIndex > current || pending[end - 1].graphIndex >= rangeEnd
      ensures forall k :: next <= k < end - 1 ==> pending[k].graphIndex <= current + 1
      ensures end < |pending| ==> pending[end].graphIndex > current + 1
      ensures pending[end - 2].graphIndex <= current || pending[end - 1].graphIndex <= current + 1
    {
      end := next;
      while end < |pending| && pending[end].graphIndex <= current + 1
        invariant next <= end <= |pending|
        invariant end > next ==> pending[end - 1].graphIndex <= current + 1
        invariant end == next ==> pending[end].graphIndex <= current + 1
      {
        end := end + 1;
      }
      if end < |pending| {
        if pending[end - 1].graphIndex <= current {
          end := end + 1;
        }
      }
    }

    /** One permission for every checkpoint that the segment passes. */
    method AddPermissions(before: seq<Permission>, ghost first: nat, current: nat, last: nat,
                          waypoints: seq<PlanWaypoint>)
      returns (permissions: seq<Permission>)
      requires CoversExactly(before, first, MinNat(current, rangeEnd)) && first <= current && last <= rangeEnd
      requires |waypoints| >= 2 && waypoints[0].graphIndex <= current && last <= waypoints[|waypoints| - 1].graphIndex
      requires current < rangeEnd ==> current in departureTiming
      requires current < last || last == rangeEnd
      requires AllTakenFrom(before, pending, departureTiming, first)
      requires current == MaxNat(first, waypoints[0].graphIndex)
      requires exists i, j :: Stretch(pending, first, i, j) && waypoints == pending[i..j]
      ensures CoversExactly(permissions, first, last)
      ensures AllTakenFrom(permissions, pending, departureTiming, first)
    {
      permissions := before;
      var c := current;
      while c < last
        invariant current <= c
        invariant c <= last || c == current
        invariant CoversExactly(permissions, first, MinNat(c, rangeEnd))
        invariant AllTakenFrom(permissions, pending, departureTiming, first)
      {
        permissions := permissions + [Permission(c, departureTiming[current], waypoints)];
        c := c + 1;
      }
    }

    /** Where the part of the plan that is still needed begins: just before it leaves the range. */
    method EndPlanIndex() returns (cut: nat)
      requires pending != [] && pending[0].graphIndex < rangeEnd
      ensures cut <= |pending|
      ensures cut < |pending| ==> pending[cut].graphIndex < rangeEnd
      ensures cut + 1 < |pending| ==> pending[cut + 1].graphIndex >= rangeEnd
      ensures cut == |pending| ==> forall k :: 0 <= k < |pending| ==> pending[k].graphIndex < rangeEnd
    {
      var it := 1;
      while it < |pending|
        invariant 1 <= it <= |pending|
        invariant forall k :: 0 <= k < it ==> pending[k].graphIndex < rangeEnd
      {
        if pending[it].graphIndex >= rangeEnd {
          return it - 1;
        }
        it := it + 1;
      }
      cut := it;
    }

    /**
     A range published by the blockade moderator.  It is ignored when it is for another
     reservation, repeats the current range, comes after the last checkpoint was reached or
     while a confirmation is awaited, or ends past what was declared ready.
     */
    method NewRange(m: Published) returns (believed: bool, sent: Option<Dispatch>)
      requires Believed(Progressed(), m) ==>
        Spans(pending, nextDeparture, m.end) && Timed(departureTiming, nextDeparture, m.end)
      modifies this`rangeBegin, this`rangeEnd, this`pending, this`nextDeparture
      ensures believed <==> Believed(old(Progressed()), m)
      ensures believed <==>
        && m.ours && !m.finished && !m.awaiting && (m.begin != old(rangeBegin) || m.end != old(rangeEnd))
        && (m.end == 0 || (m.lastReady.Some? && m.end <= m.lastReady.value + 1))
      ensures believed ==> rangeBegin == m.begin && rangeEnd == m.end
      ensures believed ==> nextDeparture == if old(nextDeparture) <= m.end then m.end else old(nextDeparture)
      ensures Progressed() == After(old(Progressed()), m)
      ensures !believed ==> unchanged(this)
      ensures IssuedOne(old(Progressed()), m, sent, pathVersion)
      ensures sent.Some? ==> AllTakenFrom(sent.value.permissions, old(pending), departureTiming, old(nextDeparture))
      ensures sent.Some? ==> OwnDepartures(sent.value.permissions, old(pending), departureTiming, old(nextDeparture))
      ensures if sent.Some? then StillNeeded(old(pending), m.end, pending) else pending == old(pending)
      ensures forall to :: Spans(old(pending), old(nextDeparture), to) ==> Spans(pending, nextDeparture, to)
    {
      if !m.ours { return false, None; }
      if m.begin == rangeBegin && m.end == rangeEnd { return false, None; }
      if m.finished { return false, None; }
      if m.awaiting { return false, None; }
      if m.lastReady.None? && m.end > 0 { return false, None; }
      if m.lastReady.Some? {
        if m.lastReady.value + 1 < m.end { return false, None; }
      }
      rangeBegin, rangeEnd := m.begin, m.end;
      sent := SendCheckpoints();
      believed := true;
    }

    /**
     A new plan for the path.  Departures start over at its first checkpoint, and the checkpoints of
     the range are sent again when the plan starts inside it, when the last batch was rejected, or
     when a departure inside the range was pushed back, which shortens the range.
     */
    method UpdateTiming(plan: seq<PlanWaypoint>, passing: (nat, nat) -> Time, now: Time, rejected: bool)
      returns (resend: bool, sent: Option<Dispatch>, ghost slow: Option<nat>)
      requires plan != [] && NonDecreasing(plan) && rangeEnd <= plan[|plan| - 1].graphIndex
      modifies this`pending, this`nextDeparture, this`rangeEnd, this`departureTiming
      ensures resend <==> Resends(old(Progressed()), plan[0].graphIndex, rejected, slow)
      ensures resend <==> plan[0].graphIndex < old(rangeEnd) || rejected
                          || exists k: nat :: k < old(rangeEnd) && FarAway(departureTiming, k, now)
      ensures rangeEnd <= old(rangeEnd) && (rangeEnd < old(rangeEnd) ==> FarAway(departureTiming, rangeEnd, now))
      ensures plan[0].graphIndex < old(rangeEnd) || rejected
              || forall k: nat :: k < rangeEnd ==> !FarAway(departureTiming, k, now)
      ensures IsSlow(departureTiming, old(rangeEnd), now, slow)
      ensures Progressed() == AfterReplan(old(Progressed()), plan[0].graphIndex, rejected, slow)
      ensures IssuedReplan(old(Progressed()), plan[0].graphIndex, sent, pathVersion)
      ensures sent.Some? ==> AllTakenFrom(sent.value.permissions, plan, departureTiming, plan[0].graphIndex)
      ensures sent.Some? ==> OwnDepartures(sent.value.permissions, plan, departureTiming, plan[0].graphIndex)
      ensures if sent.Some? then StillNeeded(plan, rangeEnd, pending) else pending == plan
      ensures Timed(departureTiming, plan[0].graphIndex, plan[|plan| - 1].graphIndex + 1)
      ensures DepartsLast(departureTiming, plan) && PassesBetween(departureTiming, plan, passing, |plan|)
      ensures forall to: nat :: Spans(plan, plan[0].graphIndex, to) ==> Spans(pending, nextDeparture, to)
    {
      TakePlan(plan, passing);
      resend, sent, slow := SendAgain(plan[0].graphIndex, now, rejected);
    }

    /** Sends the range, or what is left of it, to the robot again if the plan just taken asks for it. */
    method SendAgain(first: nat, now: Time, rejected: bool)
      returns (resend: bool, sent: Option<Dispatch>, ghost slow: Option<nat>)
      requires first == nextDeparture && Spans(pending, first, rangeEnd) && Timed(departureTiming, first, rangeEnd)
      modifies this`pending, this`nextDeparture, this`rangeEnd
      ensures resend <==> Resends(old(Progressed()), first, rejected, slow)
      ensures resend <==> first < old(rangeEnd) || rejected
                          || exists k: nat :: k < old(rangeEnd) && FarAway(departureTiming, k, now)
      ensures rangeEnd <= old(rangeEnd) && (rangeEnd < old(rangeEnd) ==> FarAway(departureTiming, rangeEnd, now))
      ensures first < old(rangeEnd) || rejected || forall k: nat :: k < rangeEnd ==> !FarAway(departureTiming, k, now)
      ensures IsSlow(departureTiming, old(rangeEnd), now, slow)
      ensures Progressed() == AfterReplan(old(Progressed()), first, rejected, slow)
      ensures IssuedReplan(old(Progressed()), first, sent, pathVersion)
      ensures sent.Some? ==> AllTakenFrom(sent.value.permissions, old(pending), departureTiming, first)
      ensures sent.Some? ==> OwnDepartures(sent.value.permissions, old(pending), departureTiming, first)
      ensures if sent.Some? then StillNeeded(old(pending), rangeEnd, pending) else pending == old(pending)
      ensures forall to: nat :: Spans(old(pending), first, to) ==> Spans(pending, nextDeparture, to)
    {
      ghost var was := Progressed();
      resend, slow := ChooseRange(first, now, rejected);
      ReplanEnd(was, first, rejected, slow);
      sent := None;
      if resend {
        sent := SendCheckpoints();
      }
    }

    method TakePlan(plan: seq<PlanWaypoint>, passing: (nat, nat) -> Time)
      requires plan != [] && NonDecreasing(plan)
      modifies this`pending, this`nextDeparture, this`departureTiming
      ensures pending == plan && nextDeparture == plan[0].graphIndex
      ensures Progressed() == old(Progressed()).(next := plan[0].graphIndex)
      ensures Timed(departureTiming, plan[0].graphIndex, plan[|plan| - 1].graphIndex + 1)
      ensures DepartsLast(departureTiming, plan) && PassesBetween(departureTiming, plan, passing, |plan|)
    {
      pending := plan;
      nextDeparture := plan[0].graphIndex;
      FillTiming(plan, passing);
    }

    /** Whether the range is sent again, and how much of it. */
    method ChooseRange(first: nat, now: Time, rejected: bool) returns (resend: bool, ghost slow: Option<nat>)
      modifies this`rangeEnd
      ensures resend <==> Resends(old(Progressed()), first, rejected, slow)
      ensures resend <==> first < old(rangeEnd) || rejected
                          || exists k: nat :: k < old(rangeEnd) && FarAway(departureTiming, k, now)
      ensures rangeEnd <= old(rangeEnd) && (rangeEnd < old(rangeEnd) ==> FarAway(departureTiming, rangeEnd, now))
      ensures first < old(rangeEnd) || rejected || forall k: nat :: k < rangeEnd ==> !FarAway(departureTiming, k, now)
      ensures IsSlow(departureTiming, old(rangeEnd), now, slow)
      ensures rangeEnd == AfterReplan(old(Progressed()), first, rejected, slow).end
    {
      resend := first < rangeEnd || rejected;
      var pushed := PushedBack(now);
      slow := pushed;
      if !resend && pushed.Some? {
        resend, rangeEnd := true, pushed.value;
      }
    }

    /** Departure times of all checkpoints the plan passes; the last plan waypoint at a checkpoint decides. */
    method FillTiming(plan: seq<PlanWaypoint>, passing: (nat, nat) -> Time)
      requires plan != [] && NonDecreasing(plan)
      modifies this`departureTiming
      ensures Timed(departureTiming, plan[0].graphIndex, plan[|plan| - 1].graphIndex + 1)
      ensures DepartsLast(departureTiming, plan)
      ensures PassesBetween(departureTiming, plan, passing, |plan|)
      ensures forall k: nat :: k < plan[0].graphIndex || k > plan[|plan| - 1].graphIndex ==>
        SameAt(old(departureTiming), departureTiming, k)
    {
      var current := plan[0].graphIndex;
      ghost var was := departureTiming;
      for i := 0 to |plan|
        invariant current == plan[if i == 0 then 0 else i - 1].graphIndex
        invariant Filled(was, departureTiming, plan, passing, i)
      {
        ghost var before := departureTiming;
        current := Enter(plan, i, current, passing);
        FilledNext(was, before, departureTiming, plan, passing, i);
      }
      assert plan[..|plan|] == plan;
    }

    /** One plan waypoint and the checkpoints passed on the way to it. */
    method Enter(plan: seq<PlanWaypoint>, i: nat, current: nat, passing: (nat, nat) -> Time) returns (next: nat)
      requires i < |plan| && current == plan[if i == 0 then 0 else i - 1].graphIndex <= plan[i].graphIndex
      modifies this`departureTiming
      ensures next == plan[i].graphIndex
      ensures forall k: nat :: Entered(old(departureTiming), departureTiming, plan, passing, i, k)
    {
      next := plan[i].graphIndex;
      if next != current {
        PassOver(i, current, next, passing);
      }
      departureTiming := departureTiming[next := plan[i].time];
    }

    /** The checkpoints between two plan waypoints. */
    method PassOver(i: nat, from: nat, to: nat, passing: (nat, nat) -> Time)
      requires from < to
      modifies this`departureTiming
      ensures forall k: nat :: if from < k < to then k in departureTiming && departureTiming[k] == passing(i, k)
                               else SameAt(old(departureTiming), departureTiming, k)
    {
      for k := from + 1 to to
        invariant forall n: nat :: if from < n < k then n in departureTiming && departureTiming[n] == passing(i, n)
                                   else SameAt(old(departureTiming), departureTiming, n)
      {
        departureTiming := departureTiming[k := passing(i, k)];
      }
    }

    /** The first departure inside the range that is still far away. */
    method PushedBack(now: Time) returns (c: Option<nat>)
      ensures IsSlow(departureTiming, rangeEnd, now, c)
    {
      for n := 0 to rangeEnd
        invariant forall k :: 0 <= k < n ==> !FarAway(departureTiming, k, now)
      {
        if n in departureTiming && now + 5 * ReadyTimingThreshold <= departureTiming[n] {
          return Some(n);
        }
      }
      c := None;
    }
  }

  const ReadyTimingThreshold: int := 20_000_000_000

  ghost predicate FarAway(timing: map<nat, Time>, k: nat, now: Time) {
    k in timing && now + 100_000_000_000 <= timing[k]
  }

  ghost predicate IsSlow(timing: map<nat, Time>, end: nat, now: Time, c: Option<nat>) {
    if c.Some? then
      c.value < end && FarAway(timing, c.value, now) && forall k :: 0 <= k < c.value ==> !FarAway(timing, k, now)
    else forall k :: 0 <= k < end ==> !FarAway(timing, k, now)
  }

  /** Each checkpoint departs at the time of the last plan waypoint on it. */
  ghost predicate DepartsLast(timing: map<nat, Time>, plan: seq<PlanWaypoint>) {
    forall n :: 0 <= n < |plan| && LastThere(plan, n) ==>
      plan[n].graphIndex in timing && timing[plan[n].graphIndex] == plan[n].time
  }

  ghost predicate LastThere(plan: seq<PlanWaypoint>, n: nat)
    requires n < |plan|
  {
    n + 1 == |plan| || plan[n + 1].graphIndex != plan[n].graphIndex
  }

  /** Checkpoints between two plan waypoints have the time at which the robot passes over them. */
  ghost predicate PassesBetween(timing: map<nat, Time>, plan: seq<PlanWaypoint>, passing: (nat, nat) -> Time, upto: nat)
    requires upto <= |plan|
  {
    forall i, k: nat :: 0 < i < upto && plan[i - 1].graphIndex < k < plan[i].graphIndex ==>
      k in timing && timing[k] == passing(i, k)
  }

  /** The departure times once the first `upto` plan waypoints are entered. */
  ghost predicate Filled(was: map<nat, Time>, timing: map<nat, Time>, plan: seq<PlanWaypoint>,
                         passing: (nat, nat) -> Time, upto: nat)
    requires plan != [] && upto <= |plan|
  {
    && DepartsLast(timing, plan[..upto]) && PassesBetween(timing, plan, passing, upto)
    && (upto > 0 ==> Timed(timing, plan[0].graphIndex, plan[upto - 1].graphIndex + 1))
    && forall k: nat :: upto == 0 || k < plan[0].graphIndex || k > plan[upto - 1].graphIndex ==> SameAt(was, timing, k)
  }

  /** One checkpoint once plan waypoint `i` is entered. */
  ghost predicate Entered(before: map<nat, Time>, timing: map<nat, Time>, plan: seq<PlanWaypoint>,
                          passing: (nat, nat) -> Time, i: nat, k: nat)
    requires i < |plan|
  {
    var from, to := plan[if i == 0 then 0 else i - 1].graphIndex, plan[i].graphIndex;
    if from < k < to then k in timing && timing[k] == passing(i, k)
    else if k == to then k in timing && timing[k] == plan[i].time
    else SameAt(before, timing, k)
  }

  lemma {:induction false} FilledNext(was: map<nat, Time>, before: map<nat, Time>, timing: map<nat, Time>,
                                      plan: seq<PlanWaypoint>, passing: (nat, nat) -> Time, i: nat)
    requires i < |plan| && NonDecreasing(plan) && Filled(was, before, plan, passing, i)
    requires forall k: nat :: Entered(before, timing, plan, passing, i, k)
    ensures Filled(was, timing, plan, passing, i + 1)
  {
    DepartsNext(before, timing, plan, passing, i);
    PassesNext(before, timing, plan, passing, i);
    forall k: nat | k < plan[0].graphIndex || k > plan[i].graphIndex ensures SameAt(was, timing, k) {
      assert SameAt(was, before, k);
      assert Entered(before, timing, plan, passing, i, k);
    }
    forall k: nat | plan[0].graphIndex <= k <= plan[i].graphIndex ensures k in timing {
      assert Entered(before, timing, plan, passing, i, k);
    }
  }

  lemma {:induction false} DepartsNext(before: map<nat, Time>, timing: map<nat, Time>, plan: seq<PlanWaypoint>,
                                       passing: (nat, nat) -> Time, i: nat)
    requires i < |plan| && NonDecreasing(plan) && DepartsLast(before, plan[..i])
    requires forall k: nat :: Entered(before, timing, plan, passing, i, k)
    ensures DepartsLast(timing, plan[..i + 1])
  {
    var was, now := plan[..i], plan[..i + 1];
    forall n | 0 <= n < |now| && LastThere(now, n)
      ensures now[n].graphIndex in timing && timing[now[n].graphIndex] == now[n].time
    {
      assert now[n] == plan[n] && Entered(before, timing, plan, passing, i, plan[n].graphIndex);
      if n < i {
        assert was[n] == plan[n] && now[n + 1] == plan[n + 1];
        assert n + 1 < i ==> was[n + 1] == plan[n + 1];
        assert plan[n].graphIndex <= plan[i - 1].graphIndex;
        assert plan[n].graphIndex < plan[n + 1].graphIndex <= plan[i].graphIndex;
        assert LastThere(was, n);
      }
    }
  }

  lemma {:induction false} PassesNext(before: map<nat, Time>, timing: map<nat, Time>, plan: seq<PlanWaypoint>,
                                      passing: (nat, nat) -> Time, i: nat)
    requires i < |plan| && NonDecreasing(plan) && PassesBetween(before, plan, passing, i)
    requires forall k: nat :: Entered(before, timing, plan, passing, i, k)
    ensures PassesBetween(timing, plan, passing, i + 1)
  {
    forall j, k: nat | 0 < j <= i && plan[j - 1].graphIndex < k < plan[j].graphIndex
      ensures k in timing && timing[k] == passing(j, k)
    {
      assert Entered(before, timing, plan, passing, i, k);
      assert j < i ==> plan[j].graphIndex <= plan[i - 1].graphIndex;
    }
  }

  ghost predicate SameAt(before: map<nat, Time>, after: map<nat, Time>, k: nat) {
    (k in before <==> k in after) && (k in before ==> before[k] == after[k])
  }

  predicate Resends(p: Progress, first: nat, rejected: bool, slow: Option<nat>) {
    first < p.end || rejected || slow.Some?
  }

  function AfterReplan(p: Progress, first: nat, rejected: bool, slow: Option<nat>): Progress {
    var end := if !(first < p.end || rejected) && slow.Some? then slow.value else p.end;
    Progress(p.begin, end, if Resends(p, first, rejected, slow) then MaxNat(first, end) else first)
  }

  lemma {:induction false} ReplanEnd(p: Progress, first: nat, rejected: bool, slow: Option<nat>)
    requires slow.Some? ==> slow.value < p.end
    ensures var now := AfterReplan(p, first, rejected, slow);
      && now.begin == p.begin && now.end <= p.end
      && (first < p.end ==> now.end == p.end && now.next == p.end && Resends(p, first, rejected, slow))
      && (p.end <= first ==> now.end <= first && now.next == first)
  {
  }

  /**
   What a new plan makes the planner send: the rest of the range if the plan starts inside it, and
   nothing otherwise.  Neither a rejection nor a shortened range makes a difference.
   */
  ghost predicate IssuedReplan(p: Progress, first: nat, sent: Option<Dispatch>, version: nat) {
    && (sent.Some? <==> first < p.end)
    && (sent.Some? ==>
      && sent.value.pathVersion == version && sent.value.standbyAt == p.end
      && if p.begin == p.end then sent.value.permissions == []
         else CoversExactly(sent.value.permissions, first, p.end))
  }

  /**
   A range as the moderator publishes it, with what the adapter knows then: whether it is for our
   reservation, whether the last checkpoint was reached, whether a confirmation is awaited, and how
   far readiness was declared.
   */
  datatype Published =
    Published(ours: bool, begin: nat, end: nat, finished: bool, awaiting: bool, lastReady: Option<nat>)

  /** The current range and the next departure. */
  datatype Progress = Progress(begin: nat, end: nat, next: nat)

  predicate Believed(p: Progress, m: Published) {
    && m.ours && !(m.begin == p.begin && m.end == p.end) && !m.finished && !m.awaiting
    && (if m.lastReady.Some? then m.end <= m.lastReady.value + 1 else m.end == 0)
  }

  function After(p: Progress, m: Published): Progress {
    if Believed(p, m) then Progress(m.begin, m.end, MaxNat(p.next, m.end)) else p
  }

  lemma {:induction false} SuffixSpans(g: seq<PlanWaypoint>, cut: nat, from: nat, end: nat)
    requires g != [] && NonDecreasing(g) && cut < |g| && g[cut].graphIndex < end && from < end
    ensures forall to :: Spans(g, from, to) ==> Spans(g[cut..], end, to)
  {
  }

  // ---------------------------------------------------------------- runs of ranges between two replans

  ghost function Indices(ps: seq<Permission>): (r: seq<nat>)
    ensures |r| == |ps|
    ensures forall k :: 0 <= k < |ps| ==> r[k] == ps[k].index
  {
    seq(|ps|, k requires 0 <= k < |ps| => ps[k].index)
  }

  ghost function Interval(from: nat, to: nat): (r: seq<nat>)
    requires from <= to
    ensures |r| == to - from
    ensures forall k :: 0 <= k < |r| ==> r[k] == from + k
  {
    seq(to - from, k requires 0 <= k < to - from => from + k)
  }

  /** What one published range makes the planner send; a single-point range loses its permissions. */
  ghost predicate IssuedOne(p: Progress, m: Published, sent: Option<Dispatch>, version: nat) {
    && (sent.Some? <==> Believed(p, m) && p.next < m.end)
    && (sent.Some? ==>
      && sent.value.pathVersion == version && sent.value.standbyAt == m.end
      && if m.begin == m.end then sent.value.permissions == []
         else CoversExactly(sent.value.permissions, p.next, m.end))
  }

  ghost predicate Issued(p: Progress, ms: seq<Published>, sent: seq<Option<Dispatch>>, version: nat)
    decreases |ms|
  {
    && |sent| == |ms|
    && (ms == [] || (IssuedOne(p, ms[0], sent[0], version) && Issued(After(p, ms[0]), ms[1..], sent[1..], version)))
  }

  ghost function Reached(p: Progress, ms: seq<Published>): (r: Progress)
    ensures p.next <= r.next
    decreases |ms|
  {
    if ms == [] then p else Reached(After(p, ms[0]), ms[1..])
  }

  /** A single-point range beyond what was reached before it. */
  predicate Hole(p: Progress, m: Published) {
    Believed(p, m) && m.begin == m.end && p.next < m.end
  }

  ghost predicate NoHole(p: Progress, ms: seq<Published>)
    decreases |ms|
  {
    ms == [] || (!Hole(p, ms[0]) && NoHole(After(p, ms[0]), ms[1..]))
  }

  ghost function AllIndices(sent: seq<Option<Dispatch>>): seq<nat> {
    if sent == [] then []
    else (if sent[0].Some? then Indices(sent[0].value.permissions) else []) + AllIndices(sent[1..])
  }

  /** What is sent is never more than the stretch that was reached, and all of it exactly without a hole. */
  lemma {:induction false} SentCount(p: Progress, ms: seq<Published>, sent: seq<Option<Dispatch>>, version: nat)
    requires Issued(p, ms, sent, version)
    ensures |AllIndices(sent)| <= Reached(p, ms).next - p.next
    ensures |AllIndices(sent)| == Reached(p, ms).next - p.next <==> NoHole(p, ms)
    decreases |ms|
  {
    if ms != [] {
      SentCount(After(p, ms[0]), ms[1..], sent[1..], version);
    }
  }

  lemma {:induction false} SentInOrder(p: Progress, ms: seq<Published>, sent: seq<Option<Dispatch>>, version: nat)
    requires Issued(p, ms, sent, version) && NoHole(p, ms)
    ensures AllIndices(sent) == Interval(p.next, Reached(p, ms).next)
    decreases |ms|
  {
    if ms != [] {
      var mid, last := After(p, ms[0]).next, Reached(p, ms).next;
      SentInOrder(After(p, ms[0]), ms[1..], sent[1..], version);
      if sent[0].Some? {
        assert Indices(sent[0].value.permissions) == Interval(p.next, mid);
      }
      assert Interval(p.next, mid) + Interval(mid, last) == Interval(p.next, last);
    }
  }

  /**
   Over any run of published ranges, believed or not, the permissions that were sent have no gap
   and no repeat if and only if no single-point range reached beyond what was reached before it.
   */
  lemma {:induction false} BatchesTile(p: Progress, ms: seq<Published>, sent: seq<Option<Dispatch>>, version: nat)
    requires Issued(p, ms, sent, version)
    ensures AllIndices(sent) == Interval(p.next, Reached(p, ms).next) <==> NoHole(p, ms)
  {
    SentCount(p, ms, sent, version);
    if NoHole(p, ms) {
      SentInOrder(p, ms, sent, version);
    }
  }

  /** The plan reaches the end of every range that is believed. */
  ghost predicate Planned(p: Progress, ms: seq<Published>, plan: seq<PlanWaypoint>, timing: map<nat, Time>, from: nat)
    decreases |ms|
  {
    ms == [] || (
      && (Believed(p, ms[0]) ==> Spans(plan, from, ms[0].end) && Timed(timing, from, ms[0].end))
      && Planned(After(p, ms[0]), ms[1..], plan, timing, from))
  }

  lemma {:induction false} PlannedLater(p: Progress, ms: seq<Published>, plan: seq<PlanWaypoint>,
                                        timing: map<nat, Time>, from: nat, rest: seq<PlanWaypoint>, next: nat)
    requires Planned(p, ms, plan, timing, from) && from <= next
    requires forall to :: Spans(plan, from, to) ==> Spans(rest, next, to)
    ensures Planned(p, ms, rest, timing, next)
    decreases |ms|
  {
    if ms != [] {
      PlannedLater(After(p, ms[0]), ms[1..], plan, timing, from, rest, next);
    }
  }

  /** Any sequence of published ranges, single-point ones and refused ones included, produces such a run. */
  method ServeRanges(data: TrafficLightData, ms: seq<Published>) returns (sent: seq<Option<Dispatch>>)
    requires Planned(data.Progressed(), ms, data.pending, data.departureTiming, data.nextDeparture)
    modifies data
    ensures Issued(old(data.Progressed()), ms, sent, data.pathVersion)
    ensures data.Progressed() == Reached(old(data.Progressed()), ms)
    ensures data.pathVersion == old(data.pathVersion)
    decreases |ms|
  {
    if ms == [] {
      return [];
    }
    ghost var p, plan, from := data.Progressed(), data.pending, data.nextDeparture;
    var believed, first := data.NewRange(ms[0]);
    PlannedLater(After(p, ms[0]), ms[1..], plan, data.departureTiming, from, data.pending, data.nextDeparture);
    var rest := ServeRanges(data, ms[1..]);
    sent := [first] + rest;
    assert sent[1..] == rest;
  }

  // ---------------------------------------------------------------- what the robot receives

  /** A dispatch as the robot side sees it. */
  ghost function AsBatch(d: Dispatch): Batch {
    Batch(AsCheckpoints(d.pathVersion, d.permissions), d.standbyAt, 0, 0)
  }

  ghost function AsCheckpoints(version: nat, ps: seq<Permission>): seq<Checkpoint> {
    if ps == [] then []
    else [Checkpoint(ps[0].index, Departed(version, ps[0].index, 0))] + AsCheckpoints(version, ps[1..])
  }

  lemma {:induction false} CheckpointsLookup(version: nat, ps: seq<Permission>, from: nat, to: nat, i: nat)
    requires CoversExactly(ps, from, to)
    ensures CheckpointProtocol.Lookup(AsCheckpoints(version, ps), i)
         == if from <= i < to then Some(Checkpoint(i, Departed(version, i, 0))) else None
    decreases |ps|
  {
    if ps != [] {
      TailCovers(ps, from, to);
      CheckpointsLookup(version, ps[1..], from + 1, to, i);
      assert AsCheckpoints(version, ps)[1..] == AsCheckpoints(version, ps[1..]);
    }
  }

  lemma {:induction false} TailCovers(ps: seq<Permission>, from: nat, to: nat)
    requires CoversExactly(ps, from, to) && ps != []
    ensures CoversExactly(ps[1..], from + 1, to) && ps[0].index == from
  {
  }

  lemma {:induction false} CheckpointsDistinct(version: nat, ps: seq<Permission>, from: nat, to: nat)
    requires CoversExactly(ps, from, to)
    ensures Distinct(AsCheckpoints(version, ps))
    decreases |ps|
  {
    if ps != [] {
      TailCovers(ps, from, to);
      CheckpointsDistinct(version, ps[1..], from + 1, to);
      CheckpointsLookup(version, ps[1..], from + 1, to, from);
      assert AsCheckpoints(version, ps)[1..] == AsCheckpoints(version, ps[1..]);
    }
  }

  /** A dispatch grants exactly the interval it was built for. */
  lemma DispatchGrants(d: Dispatch, from: nat, n: nat)
    requires CoversExactly(d.permissions, from, d.standbyAt) && d.standbyAt <= n
    ensures Grants(AsBatch(d).checkpoints, d.pathVersion, from, d.standbyAt, n)
  {
    CheckpointsDistinct(d.pathVersion, d.permissions, from, d.standbyAt);
    forall i: nat ensures CheckpointProtocol.Lookup(AsBatch(d).checkpoints, i)
      == if from <= i < d.standbyAt then Some(Checkpoint(i, Departed(d.pathVersion, i, 0))) else None
    {
      CheckpointsLookup(d.pathVersion, d.permissions, from, d.standbyAt, i);
    }
  }

  /** The deliveries of a run, in order. */
  ghost function Deliveries(sent: seq<Option<Dispatch>>): seq<Input> {
    if sent == [] then []
    else
      (if sent[0].Some? then [Deliver(sent[0].value.pathVersion, AsBatch(sent[0].value))] else [])
      + Deliveries(sent[1..])
  }

  ghost predicate IsReport(input: Input) {
    input.Moving? || input.WaitAt? || input.WaitAfter?
  }

  /** The inputs are the deliveries, in their order, with any reports of the robot in between. */
  ghost predicate Interleaves(inputs: seq<Input>, deliveries: seq<Input>) {
    if inputs == [] then deliveries == []
    else if IsReport(inputs[0]) then Interleaves(inputs[1..], deliveries)
    else deliveries != [] && inputs[0] == deliveries[0] && Interleaves(inputs[1..], deliveries[1..])
  }

  lemma {:induction false} ReportKeepsExtent(st: Light, input: Input)
    requires Inv(st) && IsReport(input)
    ensures Fed(st, input) && SameExtent(st, Step(st, input).0)
  {
    match input {
      case Moving(cp) => MovingMeans(st, cp);
      case WaitAt(cp) => WaitAtMeans(st, cp);
      case WaitAfter(cp) => WaitAfterMeans(st, cp);
    }
  }

  ghost predicate FitsPath(sent: seq<Option<Dispatch>>, n: nat) {
    forall k :: 0 <= k < |sent| && sent[k].Some? ==> sent[k].value.standbyAt <= n
  }

  /** In any state, delivering what was sent for one range leaves no gap exactly when it joins on. */
  lemma {:induction false} DeliveryJoins(st: Light, p: Progress, m: Published, d: Dispatch)
    requires Inv(st) && st.pathSize > 0
    requires IssuedOne(p, m, Some(d), st.version) && d.standbyAt <= |st.slots|
    ensures Fed(st, Deliver(d.pathVersion, AsBatch(d))) <==> (if m.begin == m.end then m.end else p.next) <= Joint(st)
    ensures Fed(st, Deliver(d.pathVersion, AsBatch(d))) ==>
      var now := Step(st, Deliver(d.pathVersion, AsBatch(d))).0;
      && Inv(now) && now.version == st.version && now.pathSize == st.pathSize && |now.slots| == |st.slots|
      && NewestStandby(now) == After(p, m).next
  {
    if m.begin == m.end {
      if Joint(st) < m.end {
        assert CheckpointProtocol.Lookup(AsBatch(d).checkpoints, Joint(st)).None?;
      }
    } else {
      DispatchGrants(d, p.next, |st.slots|);
      if Joint(st) < p.next {
        CheckpointsLookup(d.pathVersion, d.permissions, p.next, d.standbyAt, Joint(st));
      }
    }
    if Fed(st, Deliver(d.pathVersion, AsBatch(d))) {
      StepIsSafe(st, Deliver(d.pathVersion, AsBatch(d)));
    }
  }

  /**
   Both sides together: however the robot's reports come between the planner's batches, the light
   is fed without a gap if and only if no single-point range left a hole.
   */
  lemma {:induction false} PlannerFeedsRobot(st: Light, p: Progress, ms: seq<Published>,
                                             sent: seq<Option<Dispatch>>, inputs: seq<Input>)
    requires Inv(st) && st.pathSize > 0 && NewestStandby(st) == p.next >= st.standbyAt
    requires Issued(p, ms, sent, st.version) && FitsPath(sent, |st.slots|) && Interleaves(inputs, Deliveries(sent))
    ensures FedRun(st, inputs) <==> NoHole(p, ms)
    ensures NoHole(p, ms) ==> NewestStandby(StateAfter(st, inputs)) == Reached(p, ms).next
    decreases |inputs| + |ms|
  {
    if ms != [] && sent[0].None? {
      assert Deliveries(sent) == Deliveries(sent[1..]);
      PlannerFeedsRobot(st, After(p, ms[0]), ms[1..], sent[1..], inputs);
    } else if inputs != [] && IsReport(inputs[0]) {
      ReportKeepsExtent(st, inputs[0]);
      StepIsSafe(st, inputs[0]);
      PlannerFeedsRobot(Step(st, inputs[0]).0, p, ms, sent, inputs[1..]);
    } else if ms != [] {
      DeliverNext(st, p, ms, sent, inputs);
    }
  }

  lemma {:induction false} DeliverNext(st: Light, p: Progress, ms: seq<Published>, sent: seq<Option<Dispatch>>,
                                       inputs: seq<Input>)
    requires Inv(st) && st.pathSize > 0 && NewestStandby(st) == p.next >= st.standbyAt
    requires Issued(p, ms, sent, st.version) && FitsPath(sent, |st.slots|) && Interleaves(inputs, Deliveries(sent))
    requires ms != [] && sent[0].Some? && (inputs == [] || !IsReport(inputs[0]))
    ensures FedRun(st, inputs) <==> NoHole(p, ms)
    ensures NoHole(p, ms) ==> NewestStandby(StateAfter(st, inputs)) == Reached(p, ms).next
    decreases |inputs| + |ms|, 0
  {
    var d, rest := sent[0].value, sent[1..];
    var input := Deliver(d.pathVersion, AsBatch(d));
    assert Deliveries(sent)[0] == input && Deliveries(sent)[1..] == Deliveries(rest);
    DeliveryJoins(st, p, ms[0], d);
    if !Hole(p, ms[0]) {
      PlannerFeedsRobot(Step(st, input).0, After(p, ms[0]), ms[1..], rest, inputs[1..]);
    }
  }

  /** So without a hole every report, wherever it comes, causes no fault and departs only with permission. */
  lemma {:induction false} PlannerKeepsRobotSafe(st: Light, p: Progress, ms: seq<Published>,
                                                 sent: seq<Option<Dispatch>>, inputs: seq<Input>, k: nat)
    requires Inv(st) && st.pathSize > 0 && NewestStandby(st) == p.next >= st.standbyAt
    requires Issued(p, ms, sent, st.version) && FitsPath(sent, |st.slots|) && Interleaves(inputs, Deliveries(sent))
    requires NoHole(p, ms) && k < |inputs|
    ensures FedRun(st, inputs[..k]) && Fed(StateAfter(st, inputs[..k]), inputs[k])
    ensures var (now, r, fired) := Step(StateAfter(st, inputs[..k]), inputs[k]);
      Inv(now) && r != Some(Fault) && SafeEvents(now, inputs[k], fired)
  {
    PlannerFeedsRobot(st, p, ms, sent, inputs);
    RunIsSafe(st, inputs, k);
  }

  /** And after a hole the robot trips the assertion by moving from exactly the checkpoints inside it. */
  lemma {:induction false} HoleFaults(st: Light, p: Progress, m: Published, d: Dispatch, cp: nat)
    requires Inv(st) && st.pathSize > 0 && cp < |st.slots|
    requires IssuedOne(p, m, Some(d), st.version) && Hole(p, m) && d.standbyAt <= |st.slots|
    ensures MovingFrom(Receive(st, st.version, AsBatch(d)).0, cp).1 == Fault <==> Joint(st) <= cp < m.end
  {
    GapFaultsExactly(st, AsBatch(d), cp);
  }

  /** The smallest case: a plan along three checkpoints and a single-point range at the last. */
  method SinglePointRangeFaults() returns (m: Published, d: Dispatch, st: Light)
    ensures Inv(st) && st.pathSize == 3 && Hole(Progress(0, 0, 0), m)
    ensures IssuedOne(Progress(0, 0, 0), m, Some(d), st.version)
    ensures MovingFrom(Receive(st, st.version, AsBatch(d)).0, 0).1 == Fault
  {
    var plan := [PlanWaypoint(0, 0), PlanWaypoint(1, 10), PlanWaypoint(2, 20)];
    var data := new TrafficLightData(1, plan, 0, map[0 := 0, 1 := 10, 2 := 20]);
    m := Published(true, 2, 2, false, false, Some(2));
    var believed, sent := data.NewRange(m);
    d, st := sent.value, Light(1, 3, None, [None, None], 0, None, None, 0);
    HoleFaults(st, Progress(0, 0, 0), m, d, 0);
  }
}
