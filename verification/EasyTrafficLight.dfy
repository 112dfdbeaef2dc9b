/** The robot side of the traffic-light protocol as an object that is updated in place. */
module EasyTrafficLights {
  import opened Waypoints
  import opened LightSteps
  import opened CheckpointProtocol
  import opened Callbacks

  class EasyTrafficLight {
    var version: nat
    var pathSize: nat
    var received: Option<Received>
    var slots: Slots
    var standbyAt: nat
    var onStandby: Option<nat>
    var lastDeparted: Option<nat>
    var lastReached: nat

    ghost function Model(): Light
      reads this
    {
      Light(version, pathSize, received, slots, standbyAt, onStandby, lastDeparted, lastReached)
    }

    constructor ()
      ensures Model() == Light(0, 0, None, [], 0, None, None, 0) && Inv(Model())
    {
      version, pathSize, received, slots, standbyAt := 0, 0, None, [], 0;
      onStandby, lastDeparted, lastReached := None, None, 0;
    }

    method ReceiveCheckpoints(batchVersion: nat, b: Batch) returns (fired: seq<Event>)
      modifies this
      ensures (Model(), fired) == Receive(old(Model()), batchVersion, b)
      ensures Inv(old(Model())) && Fed(old(Model()), Deliver(batchVersion, b)) ==> Inv(Model())
    {
      ghost var before := Model();
      if Inv(before) && Fed(before, Deliver(batchVersion, b)) {
        StepIsSafe(before, Deliver(batchVersion, b));
      }
      fired := [];
      if batchVersion != version {
        return;
      }
      if received.Some? {
        var list := received.value.checkpoints;
        ghost var target := MergeAll(list, b.checkpoints);
        for k := 0 to |b.checkpoints|
          invariant MergeAll(list, b.checkpoints[k..]) == target
          invariant unchanged(this)
        {
          list := Merge(list, b.checkpoints[k]);
          assert b.checkpoints[k..][1..] == b.checkpoints[k + 1..];
        }
        list := RemoveFrom(list, b.standbyAt);
        received := Some(Received(list, b.standbyAt, b.onStandby, Some(b.reject)));
      } else {
        received := Some(Received(b.checkpoints, b.standbyAt, b.onStandby, Some(b.reject)));
      }
      if lastDeparted.Some? {
        if b.standbyAt < lastDeparted.value {
          fired := [Pause];
        }
      }
    }

    /** Replaces the first checkpoint with the same index, or appends. */
    static method Merge(old_: seq<Checkpoint>, c: Checkpoint) returns (list: seq<Checkpoint>)
      ensures list == MergeOne(old_, c)
    {
      for i := 0 to |old_|
        invariant MergeOne(old_, c) == old_[..i] + MergeOne(old_[i..], c)
      {
        if old_[i].index == c.index {
          assert old_[i..][1..] == old_[i + 1..];
          return old_[i := c];
        }
        assert old_[i..][1..] == old_[i + 1..];
      }
      list := old_ + [c];
    }

    /** Removes every checkpoint at or beyond the standby index. */
    static method RemoveFrom(old_: seq<Checkpoint>, standby: nat) returns (list: seq<Checkpoint>)
      ensures list == Below(old_, standby)
    {
      list := [];
      for i := 0 to |old_|
        invariant Below(old_, standby) == list + Below(old_[i..], standby)
      {
        BelowStep(old_[i..], standby);
        assert old_[i..][1..] == old_[i + 1..];
        if !(old_[i].index >= standby) {
          list := list + [old_[i]];
        }
      }
    }

    method FollowPath(size: nat, newVersion: nat) returns (ok: bool)
      modifies this
      ensures ok <==> size >= 2
      ensures Model() == if ok then FollowNewPath(old(Model()), size, newVersion) else old(Model())
      ensures ok ==> Model() == Light(newVersion, size, None, slots, 0, None, None, 0) && |slots| == size - 1
      ensures ok ==> Inv(Model()) && forall i :: 0 <= i < |slots| ==> slots[i].None?
    {
      if size < 2 {
        return false;
      }
      Clear();
      pathSize := size;
      slots := seq(size - 1, _ => None);
      version := newVersion;
      ok := true;
    }

    method Clear()
      modifies this
      ensures Model() == ClearAll(old(Model()))
    {
      pathSize, received, slots, standbyAt := 0, None, [], 0;
      onStandby, lastDeparted, lastReached := None, None, 0;
    }

    method SetIdle()
      modifies this
      ensures Model() == UpdateIdleLocation(old(Model()))
      ensures old(pathSize) != 0 ==> Model() == Light(old(version), 0, None, [], 0, None, None, 0)
      ensures old(pathSize) == 0 ==> Model() == old(Model())
    {
      if pathSize != 0 {
        Clear();
      }
    }

    method AcceptNewCheckpoints() returns (ok: bool)
      requires received.Some?
      modifies this
      ensures Model() == Accept(old(Model())).0 && ok == Accept(old(Model())).1
    {
      var list := received.value.checkpoints;
      ghost var target := Store(slots, list);
      for k := 0 to |list|
        invariant Store(slots, list[k..]) == target
        invariant Model() == old(Model()).(slots := slots)
      {
        var c := list[k];
        if c.index >= |slots| {
          return false;
        }
        slots := slots[c.index := Some(c)];
        assert list[k..][1..] == list[k + 1..];
      }
      assert list[|list|..] == [];
      assert target == (slots, true);
      standbyAt := received.value.standbyAt;
      onStandby := Some(received.value.onStandby);
      ghost var stored := slots;
      var i := standbyAt;
      while i < |slots|
        invariant standbyAt <= i && |slots| == |stored|
        invariant forall n :: 0 <= n < |slots| ==> slots[n] == if standbyAt <= n < i then None else stored[n]
        invariant Model() == old(Model()).(slots := slots, standbyAt := standbyAt, onStandby := onStandby)
        invariant standbyAt == received.value.standbyAt && onStandby == Some(received.value.onStandby)
      {
        slots := slots[i := None];
        i := i + 1;
      }
      assert slots == Cleared(stored, standbyAt);
      received := None;
      ok := true;
    }

    method ReportMovingFrom(cp: nat) returns (r: Instruction, fired: seq<Event>)
      modifies this
      ensures (Model(), r, fired) == MovingFrom(old(Model()), cp)
      ensures Inv(old(Model())) ==> Inv(Model()) && MovingAnswer(old(Model()), cp, r, fired)
    {
      ghost var before := Model();
      if Inv(before) {
        MovingIsSafe(before, cp);
        MovingMeans(before, cp);
      }
      fired := [];
      lastDeparted := Some(cp);
      lastReached := if lastReached < cp then cp else lastReached;
      if cp >= |slots| {
        return MovingError, fired;
      }
      if received.Some? {
        if received.value.standbyAt <= cp {
          return PauseImmediately, fired;
        }
        var ok := AcceptNewCheckpoints();
        if !ok {
          return Fault, fired;
        }
      }
      if slots[cp].None? {
        return if standbyAt <= cp then MovingError else Fault, fired;
      }
      fired := [DepartedFrom(slots[cp].value.departed)];
      if !(cp < standbyAt) {
        return Fault, fired;
      }
      r := if cp + 1 == standbyAt then WaitAtNextCheckpoint else ContinueAtNextCheckpoint;
    }

    method HandleNewCheckpointsWaiting(departed: Option<nat>) returns (r: Option<Instruction>, fired: seq<Event>)
      modifies this
      ensures (Model(), r, fired) == HandleWaiting(old(Model()), departed)
      ensures Inv(old(Model())) && pathSize > 0 ==>
        Inv(Model()) && WaitingOutcome(old(Model()), departed, Model(), r, fired)
    {
      ghost var before := Model();
      if Inv(before) && pathSize > 0 {
        WaitingIsSafe(before, departed);
        WaitingMeans(before, departed);
      }
      fired := [];
      lastDeparted := departed;
      if received.None? {
        return None, fired;
      }
      if lastDeparted.Some? && received.value.standbyAt <= lastDeparted.value {
        var reject := received.value.reject;
        if reject.Some? {
          fired := [Rejected(reject.value, lastDeparted.value)];
        }
        received := Some(received.value.(reject := None));
        return Some(Wait), fired;
      }
      var ok := AcceptNewCheckpoints();
      r := if ok then None else Some(Fault);
    }

    method ReportWaitingAt(cp: nat) returns (r: Instruction, fired: seq<Event>)
      modifies this
      ensures (Model(), r, fired) == WaitingAt(old(Model()), cp)
      ensures Inv(old(Model())) ==> Inv(Model()) && WaitingAtAnswer(old(Model()), cp, r, fired)
    {
      ghost var before := Model();
      if Inv(before) {
        WaitAtIsSafe(before, cp);
        WaitAtMeans(before, cp);
      }
      if cp >= pathSize {
        return WaitingError, [];
      }
      lastReached := if lastReached < cp then cp else lastReached;
      var instruction;
      instruction, fired := HandleNewCheckpointsWaiting(if cp == 0 then None else Some(cp - 1));
      if instruction.Some? {
        return instruction.value, fired;
      }
      if cp > standbyAt {
        return WaitingError, fired;
      }
      if cp == standbyAt {
        assert fired + [] == fired;
        if onStandby.Some? {
          fired := fired + [StandbyReached(onStandby.value)];
          onStandby := None;
        }
        return Wait, fired;
      }
      r := Resume;
    }

    method ReportWaitingAfter(cp: nat) returns (r: Instruction, fired: seq<Event>)
      modifies this
      ensures (Model(), r, fired) == WaitingAfter(old(Model()), cp)
      ensures Inv(old(Model())) ==> Inv(Model()) && WaitingAfterAnswer(old(Model()), cp, r, fired)
    {
      ghost var before := Model();
      if Inv(before) {
        WaitAfterIsSafe(before, cp);
        WaitAfterMeans(before, cp);
      }
      if cp >= pathSize {
        return WaitingError, [];
      }
      lastReached := if lastReached < cp then cp else lastReached;
      var instruction;
      instruction, fired := HandleNewCheckpointsWaiting(Some(cp));
      if instruction.Some? {
        return instruction.value, fired;
      }
      if cp >= standbyAt {
        return WaitingError, fired;
      }
      r := Resume;
    }

    /** Any call. */
    method Handle(input: Input) returns (r: Option<Instruction>, fired: seq<Event>)
      modifies this
      ensures (Model(), r, fired) == Step(old(Model()), input)
    {
      r, fired := None, [];
      match input {
        case Path(size, newVersion) => var ok := FollowPath(size, newVersion);
        case Idle => SetIdle();
        case Deliver(batchVersion, b) => fired := ReceiveCheckpoints(batchVersion, b);
        case Moving(cp) =>
          var answer;
          answer, fired := ReportMovingFrom(cp);
          r := Some(answer);
        case WaitAt(cp) =>
          var answer;
          answer, fired := ReportWaitingAt(cp);
          r := Some(answer);
        case WaitAfter(cp) =>
          var answer;
          answer, fired := ReportWaitingAfter(cp);
          r := Some(answer);
      }
    }

    /**
     Any run of calls, with what each answers and makes; when it is fed without a gap, none of the
     answers is a fault.
     */
    method HandleAll(inputs: seq<Input>) returns (answers: seq<Option<Instruction>>, calls: seq<seq<Event>>)
      modifies this
      ensures Model() == StateAfter(old(Model()), inputs) && |answers| == |calls| == |inputs|
      ensures forall k :: 0 <= k < |inputs| ==> answers[k] == AnswerAt(old(Model()), inputs, k)
      ensures forall k :: 0 <= k < |inputs| ==> calls[k] == FiredAt(old(Model()), inputs, k)
      ensures Inv(old(Model())) && FedRun(old(Model()), inputs) ==>
        Inv(Model()) && forall k :: 0 <= k < |answers| ==> answers[k] != Some(Fault)
      decreases |inputs|
    {
      answers, calls := [], [];
      if inputs != [] {
        ghost var before := Model();
        if Inv(before) && Fed(before, inputs[0]) {
          StepIsSafe(before, inputs[0]);
        }
        var r, fired := Handle(inputs[0]);
        var rest, more := HandleAll(inputs[1..]);
        answers, calls := [r] + rest, [fired] + more;
        AnswersShifted(before, inputs);
      }
    }
  }
}
