/**
 The robot side of the traffic-light protocol, step by step.  Batches of departure permissions
 arrive, are merged while unprocessed, and are accepted or refused when the robot
 reports that it moves or waits.  A call that would trip an assertion or index
 past the stored checkpoints ends in the outcome `Fault`.
 */
module LightSteps {
  import opened Waypoints

  /** The callback of a permission; it captured the path version and its checkpoint. */
  datatype Departed = Departed(pathVersion: nat, checkpoint: nat, id: nat)

  datatype Checkpoint = Checkpoint(index: nat, departed: Departed)

  datatype Batch = Batch(checkpoints: seq<Checkpoint>, standbyAt: nat, onStandby: nat, reject: nat)

  datatype Received = Received(checkpoints: seq<Checkpoint>, standbyAt: nat, onStandby: nat, reject: Option<nat>)

  /** Calls made into the planner side or the robot. */
  datatype Event =
    | DepartedFrom(permission: Departed)
    | StandbyReached(callback: nat)
    | Rejected(callback: nat, lastDeparted: nat)
    | Pause

  datatype Instruction =
    | MovingError | ContinueAtNextCheckpoint | WaitAtNextCheckpoint | PauseImmediately
    | WaitingError | Wait | Resume
    | Fault

  type Slots = seq<Option<Checkpoint>>

  /** All fields of the light, as one value. */
  datatype Light = Light(
    version: nat, pathSize: nat, received: Option<Received>, slots: Slots, standbyAt: nat,
    onStandby: Option<nat>, lastDeparted: Option<nat>, lastReached: nat)

  // ---------------------------------------------------------------- merging and accepting, as functions

  /** A new checkpoint replaces the first with its index, or goes to the end. */
  function MergeOne(list: seq<Checkpoint>, c: Checkpoint): seq<Checkpoint> {
    if list == [] then [c]
    else if list[0].index == c.index then [c] + list[1..]
    else [list[0]] + MergeOne(list[1..], c)
  }

  function MergeAll(list: seq<Checkpoint>, news: seq<Checkpoint>): seq<Checkpoint>
    decreases |news|
  {
    if news == [] then list else MergeAll(MergeOne(list, news[0]), news[1..])
  }

  function Below(list: seq<Checkpoint>, standbyAt: nat): seq<Checkpoint> {
    if list == [] then []
    else (if list[0].index >= standbyAt then [] else [list[0]]) + Below(list[1..], standbyAt)
  }

  lemma {:induction false} BelowStep(list: seq<Checkpoint>, standbyAt: nat)
    requires list != []
    ensures Below(list, standbyAt)
         == if list[0].index >= standbyAt then Below(list[1..], standbyAt) else [list[0]] + Below(list[1..], standbyAt)
  {
  }

  function FirstReceived(b: Batch): Received {
    Received(b.checkpoints, b.standbyAt, b.onStandby, Some(b.reject))
  }

  function Merged(r: Received, b: Batch): Received {
    Received(Below(MergeAll(r.checkpoints, b.checkpoints), b.standbyAt), b.standbyAt, b.onStandby, Some(b.reject))
  }

  /** Stores checkpoints one by one; stops at the first index out of range. */
  function Store(slots: Slots, list: seq<Checkpoint>): (r: (Slots, bool))
    ensures |r.0| == |slots|
    decreases |list|
  {
    if list == [] then (slots, true)
    else if list[0].index >= |slots| then (slots, false)
    else Store(slots[list[0].index := Some(list[0])], list[1..])
  }

  /** Forgets every permission from `from` on. */
  function Cleared(slots: Slots, from: nat): (r: Slots)
    ensures |r| == |slots|
    ensures forall i :: 0 <= i < |slots| ==> r[i] == if i < from then slots[i] else None
  {
    seq(|slots|, i requires 0 <= i < |slots| => if i < from then slots[i] else None)
  }

  // ---------------------------------------------------------------- the light's steps, as functions

  function Receive(st: Light, version: nat, b: Batch): (Light, seq<Event>) {
    if version != st.version then (st, [])
    else
      var r := if st.received.Some? then Merged(st.received.value, b) else FirstReceived(b);
      (st.(received := Some(r)),
       if st.lastDeparted.Some? && b.standbyAt < st.lastDeparted.value then [Pause] else [])
  }

  function ClearAll(st: Light): Light {
    Light(st.version, 0, None, [], 0, None, None, 0)
  }

  function FollowNewPath(st: Light, size: nat, version: nat): Light
    requires size >= 2
  {
    ClearAll(st).(version := version, pathSize := size, slots := seq(size - 1, _ => None))
  }

  function UpdateIdleLocation(st: Light): Light {
    if st.pathSize != 0 then ClearAll(st) else st
  }

  function Accept(st: Light): (Light, bool)
    requires st.received.Some?
  {
    var r := st.received.value;
    var (slots, ok) := Store(st.slots, r.checkpoints);
    if !ok then (st.(slots := slots), false)
    else
      (st.(slots := Cleared(slots, r.standbyAt), standbyAt := r.standbyAt,
           onStandby := Some(r.onStandby), received := None), true)
  }

  function MovingFrom(before: Light, cp: nat): (Light, Instruction, seq<Event>) {
    var reached := if before.lastReached < cp then cp else before.lastReached;
    var st := before.(lastDeparted := Some(cp), lastReached := reached);
    if cp >= |st.slots| then (st, MovingError, [])
    else if st.received.Some? && st.received.value.standbyAt <= cp then (st, PauseImmediately, [])
    else
      var (now, ok) := if st.received.Some? then Accept(st) else (st, true);
      if !ok then (now, Fault, [])
      else if now.slots[cp].None? then (now, if now.standbyAt <= cp then MovingError else Fault, [])
      else
        var fired := [DepartedFrom(now.slots[cp].value.departed)];
        if !(cp < now.standbyAt) then (now, Fault, fired)
        else (now, if cp + 1 == now.standbyAt then WaitAtNextCheckpoint else ContinueAtNextCheckpoint, fired)
  }

  /** Shared start of both waiting reports; no instruction means that the caller decides. */
  function HandleWaiting(before: Light, departed: Option<nat>): (Light, Option<Instruction>, seq<Event>) {
    var st := before.(lastDeparted := departed);
    if st.received.None? then (st, None, [])
    else
      var r := st.received.value;
      if departed.Some? && r.standbyAt <= departed.value then
        (st.(received := Some(r.(reject := None))), Some(Wait),
         if r.reject.Some? then [Rejected(r.reject.value, departed.value)] else [])
      else
        var (now, ok) := Accept(st);
        (now, if ok then None else Some(Fault), [])
  }

  function WaitingAt(before: Light, cp: nat): (Light, Instruction, seq<Event>) {
    if cp >= before.pathSize then (before, WaitingError, [])
    else
      var st := before.(lastReached := if before.lastReached < cp then cp else before.lastReached);
      var (now, instruction, fired) := HandleWaiting(st, if cp == 0 then None else Some(cp - 1));
      if instruction.Some? then (now, instruction.value, fired)
      else if cp > now.standbyAt then (now, WaitingError, fired)
      else if cp == now.standbyAt then
        (now.(onStandby := None), Wait,
         fired + if now.onStandby.Some? then [StandbyReached(now.onStandby.value)] else [])
      else (now, Resume, fired)
  }

  function WaitingAfter(before: Light, cp: nat): (Light, Instruction, seq<Event>) {
    if cp >= before.pathSize then (before, WaitingError, [])
    else
      var st := before.(lastReached := if before.lastReached < cp then cp else before.lastReached);
      var (now, instruction, fired) := HandleWaiting(st, Some(cp));
      if instruction.Some? then (now, instruction.value, fired)
      else if cp >= now.standbyAt then (now, WaitingError, fired)
      else (now, Resume, fired)
  }
}
