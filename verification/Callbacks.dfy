/**
 The calls that the robot side of the traffic-light protocol makes, over whole runs: the standby and
 the reject callback of a batch, and the request to pause.
 */
module Callbacks {
  import opened Waypoints
  import opened LightSteps
  import opened CheckpointProtocol

  /** The state before call `k` of a run, and what the call answers and makes. */
  ghost function At(st: Light, inputs: seq<Input>, k: nat): Light
    requires k <= |inputs|
  {
    StateAfter(st, inputs[..k])
  }

  ghost function AnswerAt(st: Light, inputs: seq<Input>, k: nat): Option<Instruction>
    requires k < |inputs|
  {
    Step(At(st, inputs, k), inputs[k]).1
  }

  ghost function FiredAt(st: Light, inputs: seq<Input>, k: nat): seq<Event>
    requires k < |inputs|
  {
    Step(At(st, inputs, k), inputs[k]).2
  }

  lemma {:induction false} AtNext(st: Light, inputs: seq<Input>, k: nat)
    requires k < |inputs|
    ensures At(st, inputs, k + 1) == Step(At(st, inputs, k), inputs[k]).0
  {
    assert inputs[..k + 1] == inputs[..k] + [inputs[k]];
    StateAfterLast(st, inputs[..k], inputs[k]);
  }

  lemma {:induction false} StateAfterLast(st: Light, inputs: seq<Input>, last: Input)
    ensures StateAfter(st, inputs + [last]) == Step(StateAfter(st, inputs), last).0
    decreases |inputs|
  {
    if inputs == [] {
      assert [last][1..] == [];
    } else {
      StateAfterLast(Step(st, inputs[0]).0, inputs[1..], last);
      assert (inputs + [last])[1..] == inputs[1..] + [last];
    }
  }

  /** The first call of a run, and the rest as a run of its own. */
  lemma {:induction false} AnswersShifted(st: Light, inputs: seq<Input>)
    requires inputs != []
    ensures (AnswerAt(st, inputs, 0), FiredAt(st, inputs, 0)) == (Step(st, inputs[0]).1, Step(st, inputs[0]).2)
    ensures var next := Step(st, inputs[0]).0;
      forall k :: 0 < k < |inputs| ==>
        && AnswerAt(st, inputs, k) == AnswerAt(next, inputs[1..], k - 1)
        && FiredAt(st, inputs, k) == FiredAt(next, inputs[1..], k - 1)
  {
    assert inputs[..0] == [];
    forall k | 0 < k < |inputs| ensures At(st, inputs, k) == At(Step(st, inputs[0]).0, inputs[1..], k - 1) {
      assert inputs[..k][1..] == inputs[1..][..k - 1];
    }
  }

  // ---------------------------------------------------------------- standby and reject callbacks

  datatype Kind = Standby | Refusal

  /** A batch for the current path. */
  ghost predicate Accepts(st: Light, input: Input) {
    input.Deliver? && input.version == st.version
  }

  /** The light forgets its path, for another one or none. */
  ghost predicate Restarts(st: Light, input: Input) {
    (input.Path? && input.size >= 2) || (input.Idle? && st.pathSize != 0)
  }

  ghost function CallbackOf(b: Batch, kind: Kind): nat {
    if kind == Standby then b.onStandby else b.reject
  }

  ghost predicate IsCall(e: Event, kind: Kind) {
    if kind == Standby then e.StandbyReached? else e.Rejected?
  }

  ghost function Called(e: Event): nat
    requires e.StandbyReached? || e.Rejected?
  {
    e.callback
  }

  ghost predicate CallsBack(fired: seq<Event>, kind: Kind) {
    exists i :: 0 <= i < |fired| && IsCall(fired[i], kind)
  }

  /** The callback that the light may still call. */
  ghost function Owed(st: Light, kind: Kind): Option<nat> {
    if kind == Standby then NewestCallback(st)
    else if st.received.Some? then st.received.value.reject else None
  }

  ghost predicate OwedAfter(st: Light, input: Input, kind: Kind) {
    var (now, _, fired) := Step(st, input);
    if Accepts(st, input) then Owed(now, kind) == Some(CallbackOf(input.batch, kind)) && !CallsBack(fired, kind)
    else if Restarts(st, input) then Owed(now, kind) == None && fired == []
    else
      && (forall i :: 0 <= i < |fired| && IsCall(fired[i], kind) ==>
            Owed(st, kind) == Some(Called(fired[i])) && Owed(now, kind) == None)
      && (CallsBack(fired, kind) || Owed(now, kind) == Owed(st, kind) || (kind == Refusal && Owed(now, kind) == None))
  }

  /** One call: a batch brings its callbacks, a new path forgets them, and to call one is to forget it. */
  lemma {:induction false} OwedStep(st: Light, input: Input, kind: Kind)
    ensures OwedAfter(st, input, kind)
  {
    match input {
      case Moving(cp) => OwedMoving(st, cp, kind);
      case WaitAt(cp) => OwedWaitAt(st, cp, kind);
      case WaitAfter(cp) => OwedWaitAfter(st, cp, kind);
      case Path(_, _) =>
      case Idle =>
      case Deliver(_, _) =>
    }
  }

  lemma {:induction false} OwedMoving(st: Light, cp: nat, kind: Kind)
    ensures OwedAfter(st, Moving(cp), kind)
  {
  }

  lemma {:induction false} OwedWaitAt(st: Light, cp: nat, kind: Kind)
    ensures OwedAfter(st, WaitAt(cp), kind)
  {
    var fired := Step(st, WaitAt(cp)).2;
    if fired != [] && IsCall(fired[0], kind) {
      assert CallsBack(fired, kind);
    }
  }

  lemma {:induction false} OwedWaitAfter(st: Light, cp: nat, kind: Kind)
    ensures OwedAfter(st, WaitAfter(cp), kind)
  {
  }

  /** Nothing happens at call `j` that brings, forgets or calls such a callback. */
  ghost predicate Quiet(st: Light, inputs: seq<Input>, j: nat, kind: Kind) {
    && j < |inputs| && !Accepts(At(st, inputs, j), inputs[j]) && !Restarts(At(st, inputs, j), inputs[j])
    && !CallsBack(FiredAt(st, inputs, j), kind)
  }

  /** Batch `d` is the newest one of the current path before call `k`, and its callback was not called yet. */
  ghost predicate NewestUncalled(st: Light, inputs: seq<Input>, d: nat, k: nat, kind: Kind, callback: nat) {
    && d < k <= |inputs| && Accepts(At(st, inputs, d), inputs[d])
    && CallbackOf(inputs[d].batch, kind) == callback
    && forall j :: d < j < k ==> Quiet(st, inputs, j, kind)
  }

  lemma {:induction false} OwedByNewest(st: Light, inputs: seq<Input>, k: nat, kind: Kind) returns (d: nat)
    requires Owed(st, kind) == None && k <= |inputs| && Owed(At(st, inputs, k), kind).Some?
    ensures NewestUncalled(st, inputs, d, k, kind, Owed(At(st, inputs, k), kind).value)
    decreases k
  {
    assert inputs[..0] == [];
    var j := k - 1;
    AtNext(st, inputs, j);
    OwedStep(At(st, inputs, j), inputs[j], kind);
    if Accepts(At(st, inputs, j), inputs[j]) {
      d := j;
    } else {
      d := OwedByNewest(st, inputs, j, kind);
    }
  }

  /**
   In every run each standby or reject callback that is called belongs to the newest batch of the
   current path, and is called for the first time since that batch came in.
   */
  lemma {:induction false} CalledOnce(st: Light, inputs: seq<Input>, k: nat, kind: Kind, i: nat) returns (d: nat)
    requires Owed(st, kind) == None && k < |inputs| && i < |FiredAt(st, inputs, k)|
    requires IsCall(FiredAt(st, inputs, k)[i], kind)
    ensures NewestUncalled(st, inputs, d, k, kind, Called(FiredAt(st, inputs, k)[i]))
  {
    OwedStep(At(st, inputs, k), inputs[k], kind);
    d := OwedByNewest(st, inputs, k, kind);
  }

  // ---------------------------------------------------------------- pausing

  /** What a call tells of the last departure, if it tells anything. */
  ghost function Tells(st: Light, input: Input): Option<Option<nat>> {
    if Restarts(st, input) then Some(None)
    else if input.Moving? then Some(Some(input.cp))
    else if input.WaitAfter? && input.cp < st.pathSize then Some(Some(input.cp))
    else if input.WaitAt? && input.cp < st.pathSize then Some(if input.cp == 0 then None else Some(input.cp - 1))
    else None
  }

  /** The last departure is the one that was told last on this path. */
  ghost predicate ToldLast(st: Light, inputs: seq<Input>, t: nat, k: nat, departed: Option<nat>) {
    && t < k <= |inputs| && Tells(At(st, inputs, t), inputs[t]) == Some(departed)
    && forall j :: t < j < k ==> Tells(At(st, inputs, j), inputs[j]) == None
  }

  lemma {:induction false} DepartureStep(st: Light, input: Input)
    ensures var told := Tells(st, input);
      Step(st, input).0.lastDeparted == if told.Some? then told.value else st.lastDeparted
  {
  }

  lemma {:induction false} PauseStep(st: Light, input: Input)
    ensures Pause in Step(st, input).2 <==>
      Accepts(st, input) && st.lastDeparted.Some? && input.batch.standbyAt < st.lastDeparted.value
  {
  }

  lemma {:induction false} DepartureTold(st: Light, inputs: seq<Input>, k: nat) returns (t: nat)
    requires st.lastDeparted.None? && k <= |inputs| && At(st, inputs, k).lastDeparted.Some?
    ensures ToldLast(st, inputs, t, k, At(st, inputs, k).lastDeparted)
    decreases k
  {
    assert inputs[..0] == [];
    var j := k - 1;
    AtNext(st, inputs, j);
    DepartureStep(At(st, inputs, j), inputs[j]);
    if Tells(At(st, inputs, j), inputs[j]).Some? {
      t := j;
    } else {
      t := DepartureTold(st, inputs, j);
    }
  }

  /** The told departure is remembered until something else is told. */
  lemma {:induction false} DepartureKept(st: Light, inputs: seq<Input>, t: nat, k: nat, departed: Option<nat>)
    requires ToldLast(st, inputs, t, k, departed)
    ensures At(st, inputs, k).lastDeparted == departed
    decreases k
  {
    AtNext(st, inputs, k - 1);
    DepartureStep(At(st, inputs, k - 1), inputs[k - 1]);
    if t < k - 1 {
      DepartureKept(st, inputs, t, k - 1, departed);
    }
  }

  /** Something was last told to be departed from beyond the standby of the batch. */
  ghost predicate DepartedBeyond(st: Light, inputs: seq<Input>, k: nat, standbyAt: nat) {
    exists t, cp: nat :: ToldLast(st, inputs, t, k, Some(cp)) && standbyAt < cp
  }

  /**
   In every run a pause is asked for exactly when a batch of the current path comes in whose standby
   lies behind the departure that the robot told last.
   */
  lemma {:induction false} PausesExactly(st: Light, inputs: seq<Input>, k: nat)
    requires st.lastDeparted.None? && k < |inputs|
    ensures Pause in FiredAt(st, inputs, k) <==>
      Accepts(At(st, inputs, k), inputs[k]) && DepartedBeyond(st, inputs, k, inputs[k].batch.standbyAt)
  {
    var now := At(st, inputs, k);
    PauseStep(now, inputs[k]);
    if now.lastDeparted.Some? {
      var t := DepartureTold(st, inputs, k);
    }
    forall t, cp: nat | ToldLast(st, inputs, t, k, Some(cp)) ensures now.lastDeparted == Some(cp) {
      DepartureKept(st, inputs, t, k, Some(cp));
    }
  }

  // ---------------------------------------------------------------- progress

  /** The checkpoint that a report names. */
  ghost function Named(st: Light, input: Input): Option<nat> {
    if input.Moving? || ((input.WaitAt? || input.WaitAfter?) && input.cp < st.pathSize) then Some(input.cp) else None
  }

  lemma {:induction false} ReachedStep(st: Light, input: Input)
    requires !Restarts(st, input)
    ensures var now, named := Step(st, input).0.lastReached, Named(st, input);
      && now >= st.lastReached && (named.Some? ==> now >= named.value)
      && (now == st.lastReached || named == Some(now))
  {
  }

  /** On one path the last checkpoint reached is the furthest one that was named. */
  lemma {:induction false} ReachedIsFurthest(st: Light, inputs: seq<Input>, k: nat)
    requires k <= |inputs| && forall j :: 0 <= j < k ==> !Restarts(At(st, inputs, j), inputs[j])
    ensures At(st, inputs, k).lastReached >= st.lastReached
    ensures forall j :: 0 <= j < k && Named(At(st, inputs, j), inputs[j]).Some? ==>
      At(st, inputs, k).lastReached >= Named(At(st, inputs, j), inputs[j]).value
    ensures At(st, inputs, k).lastReached == st.lastReached
      || exists j :: 0 <= j < k && Named(At(st, inputs, j), inputs[j]) == Some(At(st, inputs, k).lastReached)
    decreases k
  {
    if k == 0 {
      assert inputs[..0] == [];
    } else {
      ReachedIsFurthest(st, inputs, k - 1);
      AtNext(st, inputs, k - 1);
      ReachedStep(At(st, inputs, k - 1), inputs[k - 1]);
    }
  }
}
