/**
 What the robot side of the traffic-light protocol guarantees over whole runs:
 merging unprocessed batches is as good as accepting each in turn, and a
 departure is reported only for a checkpoint that was granted for the current path.
 */
module CheckpointProtocol {
  import opened Waypoints
  import opened LightSteps

  // ---------------------------------------------------------------- checkpoint lists as tables

  ghost function Lookup(list: seq<Checkpoint>, i: nat): Option<Checkpoint> {
    if list == [] then None else if list[0].index == i then Some(list[0]) else Lookup(list[1..], i)
  }

  ghost predicate Distinct(list: seq<Checkpoint>) {
    list == [] || (Lookup(list[1..], list[0].index).None? && Distinct(list[1..]))
  }

  ghost predicate AllBelow(list: seq<Checkpoint>, n: nat) {
    forall i :: n <= i ==> Lookup(list, i).None?
  }

  lemma {:induction false} LookupIndex(list: seq<Checkpoint>, i: nat)
    ensures Lookup(list, i).Some? ==> Lookup(list, i).value.index == i
  {
    if list != [] { LookupIndex(list[1..], i); }
  }

  lemma {:induction false} MergeOneLookup(list: seq<Checkpoint>, c: Checkpoint, i: nat)
    ensures Lookup(MergeOne(list, c), i) == if i == c.index then Some(c) else Lookup(list, i)
  {
    if list != [] {
      if list[0].index == c.index {
        assert ([c] + list[1..])[1..] == list[1..];
      } else {
        MergeOneLookup(list[1..], c, i);
        assert MergeOne(list, c)[1..] == MergeOne(list[1..], c);
      }
    }
  }

  lemma {:induction false} MergeOneDistinct(list: seq<Checkpoint>, c: Checkpoint)
    requires Distinct(list)
    ensures Distinct(MergeOne(list, c))
  {
    if list != [] {
      if list[0].index == c.index {
        assert ([c] + list[1..])[1..] == list[1..];
      } else {
        MergeOneDistinct(list[1..], c);
        MergeOneLookup(list[1..], c, list[0].index);
        assert MergeOne(list, c)[1..] == MergeOne(list[1..], c);
      }
    }
  }

  /** After merging, the new batch answers for its indices and the old list for the rest. */
  lemma {:induction false} MergeAllLookup(list: seq<Checkpoint>, news: seq<Checkpoint>, i: nat)
    requires Distinct(news)
    ensures Lookup(MergeAll(list, news), i) == if Lookup(news, i).Some? then Lookup(news, i) else Lookup(list, i)
    decreases |news|
  {
    if news != [] {
      MergeAllLookup(MergeOne(list, news[0]), news[1..], i);
      MergeOneLookup(list, news[0], i);
    }
  }

  lemma {:induction false} MergeAllDistinct(list: seq<Checkpoint>, news: seq<Checkpoint>)
    requires Distinct(list)
    ensures Distinct(MergeAll(list, news))
    decreases |news|
  {
    if news != [] {
      MergeOneDistinct(list, news[0]);
      MergeAllDistinct(MergeOne(list, news[0]), news[1..]);
    }
  }

  lemma {:induction false} BelowLookup(list: seq<Checkpoint>, s: nat, i: nat)
    ensures Lookup(Below(list, s), i) == if i < s then Lookup(list, i) else None
  {
    if list != [] {
      BelowLookup(list[1..], s, i);
      if list[0].index < s {
        assert Below(list, s) == [list[0]] + Below(list[1..], s);
        assert Below(list, s)[1..] == Below(list[1..], s);
      } else {
        assert Below(list, s) == Below(list[1..], s);
      }
    }
  }

  lemma {:induction false} BelowDistinct(list: seq<Checkpoint>, s: nat)
    requires Distinct(list)
    ensures Distinct(Below(list, s))
  {
    if list != [] {
      BelowDistinct(list[1..], s);
      BelowLookup(list[1..], s, list[0].index);
      if list[0].index < s {
        assert Below(list, s)[1..] == Below(list[1..], s);
      } else {
        assert Below(list, s) == Below(list[1..], s);
      }
    }
  }

  /** The newest permission for an index below the newest standby. */
  ghost function Newest(r: Received, b: Batch, i: nat): Option<Checkpoint> {
    if i >= b.standbyAt then None
    else if Lookup(b.checkpoints, i).Some? then Lookup(b.checkpoints, i)
    else Lookup(r.checkpoints, i)
  }

  /** Merging keeps lists without repeats and answers for the newest permissions below the standby. */
  lemma MergedLookup(r: Received, b: Batch)
    requires Distinct(r.checkpoints) && Distinct(b.checkpoints)
    ensures Distinct(Merged(r, b).checkpoints) && AllBelow(Merged(r, b).checkpoints, b.standbyAt)
    ensures forall i: nat :: Lookup(Merged(r, b).checkpoints, i) == Newest(r, b, i)
  {
    var all := MergeAll(r.checkpoints, b.checkpoints);
    MergeAllDistinct(r.checkpoints, b.checkpoints);
    BelowDistinct(all, b.standbyAt);
    forall i: nat ensures Lookup(Merged(r, b).checkpoints, i) == Newest(r, b, i) {
      MergeAllLookup(r.checkpoints, b.checkpoints, i);
      BelowLookup(all, b.standbyAt, i);
    }
  }

  lemma {:induction false} StoreInRange(slots: Slots, list: seq<Checkpoint>)
    requires Distinct(list) && AllBelow(list, |slots|)
    ensures Store(slots, list).1
    decreases |list|
  {
    if list != [] {
      assert Lookup(list, list[0].index).Some?;
      TailBelow(list, |slots|);
      StoreInRange(slots[list[0].index := Some(list[0])], list[1..]);
    }
  }

  lemma {:induction false} StoreLookup(slots: Slots, list: seq<Checkpoint>, i: nat)
    requires Distinct(list) && AllBelow(list, |slots|) && i < |slots|
    ensures Store(slots, list).1
    ensures Store(slots, list).0[i] == if Lookup(list, i).Some? then Lookup(list, i) else slots[i]
    decreases |list|
  {
    if list != [] {
      var c := list[0];
      assert Lookup(list, c.index).Some?;
      var next := slots[c.index := Some(c)];
      TailBelow(list, |slots|);
      StoreLookup(next, list[1..], i);
    }
  }

  lemma {:induction false} TailBelow(list: seq<Checkpoint>, n: nat)
    requires list != [] && Distinct(list) && AllBelow(list, n)
    ensures AllBelow(list[1..], n)
  {
    forall i | n <= i ensures Lookup(list[1..], i).None? {
      assert Lookup(list, i).None?;
    }
  }

  // ---------------------------------------------------------------- merging equals replaying

  /** The slots after accepting one received list. */
  ghost function Taken(slots: Slots, r: Received): (t: Slots)
    ensures |t| == |slots|
  {
    Cleared(Store(slots, r.checkpoints).0, r.standbyAt)
  }

  ghost predicate Fits(r: Received, n: nat) {
    Distinct(r.checkpoints) && AllBelow(r.checkpoints, r.standbyAt) && r.standbyAt <= n
  }

  lemma {:induction false} TakenAt(slots: Slots, r: Received, i: nat)
    requires Fits(r, |slots|) && i < |slots|
    ensures Taken(slots, r)[i]
         == if i >= r.standbyAt then None
            else if Lookup(r.checkpoints, i).Some? then Lookup(r.checkpoints, i)
            else slots[i]
  {
    assert AllBelow(r.checkpoints, |slots|);
    StoreLookup(slots, r.checkpoints, i);
  }

  lemma MergedFits(r: Received, b: Batch, n: nat)
    requires Fits(r, n) && Fits(FirstReceived(b), n)
    ensures Fits(Merged(r, b), n)
  {
    MergedLookup(r, b);
  }

  /** An index between the two standbys that the newer batch leaves open but the slots remember. */
  ghost predicate Forgotten(slots: Slots, r: Received, b: Batch, i: nat) {
    r.standbyAt <= i < b.standbyAt && i < |slots| && Lookup(b.checkpoints, i).None? && slots[i].Some?
  }

  /** Merging two batches and accepting once equals accepting both, exactly when nothing is forgotten. */
  lemma {:induction false} MergeIsReplayExactly(slots: Slots, r: Received, b: Batch)
    requires Fits(r, |slots|) && Fits(FirstReceived(b), |slots|)
    ensures Taken(slots, Merged(r, b)) == Taken(Taken(slots, r), FirstReceived(b))
       <==> forall i: nat :: !Forgotten(slots, r, b, i)
  {
    var once, twice := Taken(slots, Merged(r, b)), Taken(Taken(slots, r), FirstReceived(b));
    forall i: nat | i < |slots| ensures once[i] == twice[i] <==> !Forgotten(slots, r, b, i) {
      MergedFits(r, b, |slots|);
      MergedLookup(r, b);
      TakenAt(slots, Merged(r, b), i);
      TakenAt(slots, r, i);
      TakenAt(Taken(slots, r), FirstReceived(b), i);
    }
    if forall i: nat :: !Forgotten(slots, r, b, i) {
      assert once == twice;
    } else {
      var i: nat :| Forgotten(slots, r, b, i);
      assert once[i] != twice[i];
    }
  }

  /** The batch grants everything from the preceding standby up to its own. */
  ghost predicate ExtendsFrom(b: Batch, standby: nat) {
    forall i :: standby <= i < b.standbyAt ==> Lookup(b.checkpoints, i).Some?
  }

  ghost predicate Contiguous(batches: seq<Batch>) {
    forall k :: 0 < k < |batches| ==> ExtendsFrom(batches[k], batches[k - 1].standbyAt)
  }

  ghost function MergeBatches(batches: seq<Batch>): Received
    requires batches != []
  {
    if |batches| == 1 then FirstReceived(batches[0])
    else Merged(MergeBatches(batches[..|batches| - 1]), batches[|batches| - 1])
  }

  ghost function Replay(slots: Slots, batches: seq<Batch>): (r: Slots)
    ensures |r| == |slots|
  {
    if batches == [] then slots
    else Taken(Replay(slots, batches[..|batches| - 1]), FirstReceived(batches[|batches| - 1]))
  }

  /** Any number of contiguous batches may be merged while unprocessed: accepting once is accepting each in turn. */
  lemma {:induction false} MergingEqualsReplaying(slots: Slots, batches: seq<Batch>)
    requires batches != [] && Contiguous(batches)
    requires forall k :: 0 <= k < |batches| ==> Fits(FirstReceived(batches[k]), |slots|)
    ensures Fits(MergeBatches(batches), |slots|)
    ensures Taken(slots, MergeBatches(batches)) == Replay(slots, batches)
    ensures MergeBatches(batches).standbyAt == batches[|batches| - 1].standbyAt
    ensures MergeBatches(batches).onStandby == batches[|batches| - 1].onStandby
    decreases |batches|
  {
    var n := |batches| - 1;
    if n == 0 {
      assert batches[..0] == [];
      assert Replay(slots, batches[..0]) == slots;
    } else {
      var init, last := batches[..n], batches[n];
      assert forall k :: 0 <= k < n ==> init[k] == batches[k];
      MergingEqualsReplaying(slots, init);
      MergedFits(MergeBatches(init), last, |slots|);
      assert ExtendsFrom(last, batches[n - 1].standbyAt);
      forall i: nat ensures !Forgotten(slots, MergeBatches(init), last, i) {
      }
      MergeIsReplayExactly(slots, MergeBatches(init), last);
    }
  }

  // ---------------------------------------------------------------- permission safety

  ghost predicate Permits(c: Checkpoint, version: nat, i: nat) {
    c.index == i && c.departed.pathVersion == version && c.departed.checkpoint == i
  }

  ghost predicate AllPermit(list: seq<Checkpoint>, version: nat) {
    forall i: nat :: Lookup(list, i).Some? ==> Permits(Lookup(list, i).value, version, i)
  }

  /** A checkpoint is stored exactly when its index is below the standby, with its own permission. */
  ghost predicate SlotsGranted(slots: Slots, standbyAt: nat, version: nat) {
    forall i :: 0 <= i < |slots| ==>
      (slots[i].Some? <==> i < standbyAt) && (slots[i].Some? ==> Permits(slots[i].value, version, i))
  }

  ghost predicate Grants(list: seq<Checkpoint>, version: nat, from: nat, standbyAt: nat, n: nat) {
    && Distinct(list) && AllBelow(list, standbyAt) && standbyAt <= n && AllPermit(list, version)
    && forall i :: from <= i < standbyAt ==> Lookup(list, i).Some?
  }

  ghost predicate Inv(st: Light) {
    if st.pathSize == 0 then st.slots == [] && st.standbyAt == 0
    else
      && |st.slots| == st.pathSize - 1
      && st.standbyAt <= |st.slots|
      && SlotsGranted(st.slots, st.standbyAt, st.version)
      && (st.received.Some? ==>
            Grants(st.received.value.checkpoints, st.version, st.standbyAt, st.received.value.standbyAt, |st.slots|))
  }

  datatype Input =
    | Path(size: nat, version: nat)
    | Idle
    | Deliver(version: nat, batch: Batch)
    | Moving(cp: nat)
    | WaitAt(cp: nat)
    | WaitAfter(cp: nat)

  /** The standby of the newest batch, processed or not. */
  ghost function NewestStandby(st: Light): nat {
    if st.received.Some? then st.received.value.standbyAt else st.standbyAt
  }

  /**
   Where a new batch has to join on: what was accepted stays stored until the next acceptance, so
   the batch may start anywhere up to the accepted or the unprocessed standby.
   */
  ghost function Joint(st: Light): nat {
    if NewestStandby(st) < st.standbyAt then st.standbyAt else NewestStandby(st)
  }

  /** Batches for the current path join on without a gap and carry that path's permissions. */
  ghost predicate Fed(st: Light, input: Input) {
    match input
    case Deliver(v, b) => v == st.version && st.pathSize > 0 ==>
      Grants(b.checkpoints, v, Joint(st), b.standbyAt, |st.slots|)
    case _ => true
  }

  ghost function Step(st: Light, input: Input): (Light, Option<Instruction>, seq<Event>) {
    match input
    case Path(size, version) => (if size < 2 then st else FollowNewPath(st, size, version), None, [])
    case Idle => (UpdateIdleLocation(st), None, [])
    case Deliver(v, b) => var (now, fired) := Receive(st, v, b); (now, None, fired)
    case Moving(cp) => var (now, r, fired) := MovingFrom(st, cp); (now, Some(r), fired)
    case WaitAt(cp) => var (now, r, fired) := WaitingAt(st, cp); (now, Some(r), fired)
    case WaitAfter(cp) => var (now, r, fired) := WaitingAfter(st, cp); (now, Some(r), fired)
  }

  lemma {:induction false} TakenGranted(slots: Slots, r: Received, standbyAt: nat, version: nat)
    requires SlotsGranted(slots, standbyAt, version)
    requires Grants(r.checkpoints, version, standbyAt, r.standbyAt, |slots|)
    ensures SlotsGranted(Taken(slots, r), r.standbyAt, version)
  {
    forall i | 0 <= i < |slots|
      ensures (Taken(slots, r)[i].Some? <==> i < r.standbyAt)
      ensures Taken(slots, r)[i].Some? ==> Permits(Taken(slots, r)[i].value, version, i)
    {
      TakenAt(slots, r, i);
      assert Lookup(r.checkpoints, i).Some? ==> Permits(Lookup(r.checkpoints, i).value, version, i);
    }
  }

  /** Accepting never indexes out of range and keeps the stored permissions exact. */
  lemma {:induction false} AcceptKeeps(st: Light)
    requires Inv(st) && st.pathSize > 0 && st.received.Some?
    ensures Accept(st).1 && Inv(Accept(st).0)
    ensures Accept(st).0.version == st.version && |Accept(st).0.slots| == |st.slots|
  {
    var r := st.received.value;
    TakenGranted(st.slots, r, st.standbyAt, st.version);
    assert AllBelow(r.checkpoints, |st.slots|);
    StoreInRange(st.slots, r.checkpoints);
  }

  lemma {:induction false} ReceiveKeeps(st: Light, b: Batch)
    requires Inv(st) && st.pathSize > 0
    requires Grants(b.checkpoints, st.version, Joint(st), b.standbyAt, |st.slots|)
    ensures Inv(Receive(st, st.version, b).0)
  {
    if st.received.Some? {
      var r := st.received.value;
      MergedLookup(r, b);
      var m := Merged(r, b);
      forall i: nat | Lookup(m.checkpoints, i).Some? ensures Permits(Lookup(m.checkpoints, i).value, st.version, i) {
        if Lookup(b.checkpoints, i).Some? {
          assert Permits(Lookup(b.checkpoints, i).value, st.version, i);
        } else {
          assert Permits(Lookup(r.checkpoints, i).value, st.version, i);
        }
      }
    }
  }

  /** A fired departure belongs to the reported checkpoint, granted for the current path below the standby. */
  ghost predicate SafeEvents(st: Light, input: Input, fired: seq<Event>) {
    forall e :: e in fired && e.DepartedFrom? ==>
      input.Moving? && Permits(Checkpoint(input.cp, e.permission), st.version, input.cp) && input.cp < st.standbyAt
  }

  lemma {:induction false} MovingIsSafe(st: Light, cp: nat)
    requires Inv(st)
    ensures var (now, r, fired) := MovingFrom(st, cp);
      Inv(now) && r != Fault && now.version == st.version && SafeEvents(now, Moving(cp), fired)
  {
    var at := st.(lastDeparted := Some(cp), lastReached := if st.lastReached < cp then cp else st.lastReached);
    assert Inv(at);
    if cp < |at.slots| && at.received.Some? {
      AcceptKeeps(at);
    }
  }

  lemma {:induction false} WaitingIsSafe(st: Light, departed: Option<nat>)
    requires Inv(st) && st.pathSize > 0
    ensures var (now, r, fired) := HandleWaiting(st, departed);
      && Inv(now) && r != Some(Fault) && now.version == st.version && now.pathSize > 0
      && forall e :: e in fired ==> !e.DepartedFrom?
  {
    var at := st.(lastDeparted := departed);
    assert Inv(at);
    if at.received.Some? {
      AcceptKeeps(at);
    }
  }

  /** One step of a run that is fed without gaps: no fault, and departures only with permission. */
  lemma {:induction false} StepIsSafe(st: Light, input: Input)
    requires Inv(st) && Fed(st, input)
    ensures var (now, r, fired) := Step(st, input);
      Inv(now) && r != Some(Fault) && SafeEvents(now, input, fired)
  {
    match input {
      case Path(_, _) =>
      case Idle =>
      case Deliver(v, b) =>
        if v == st.version && st.pathSize > 0 { ReceiveKeeps(st, b); }
      case Moving(cp) => MovingIsSafe(st, cp);
      case WaitAt(cp) => WaitAtIsSafe(st, cp);
      case WaitAfter(cp) => WaitAfterIsSafe(st, cp);
    }
  }

  lemma {:induction false} WaitAtIsSafe(st: Light, cp: nat)
    requires Inv(st)
    ensures var (now, r, fired) := WaitingAt(st, cp);
      Inv(now) && r != Fault && SafeEvents(now, WaitAt(cp), fired)
  {
    if cp < st.pathSize {
      var at := st.(lastReached := if st.lastReached < cp then cp else st.lastReached);
      assert Inv(at);
      WaitingIsSafe(at, if cp == 0 then None else Some(cp - 1));
    }
  }

  lemma {:induction false} WaitAfterIsSafe(st: Light, cp: nat)
    requires Inv(st)
    ensures var (now, r, fired) := WaitingAfter(st, cp);
      Inv(now) && r != Fault && SafeEvents(now, WaitAfter(cp), fired)
  {
    if cp < st.pathSize {
      var at := st.(lastReached := if st.lastReached < cp then cp else st.lastReached);
      assert Inv(at);
      WaitingIsSafe(at, Some(cp));
    }
  }

  // ---------------------------------------------------------------- what the answers mean

  /** Only the newest standby, processed or not, decides what a moving robot is told. */
  ghost predicate MovingAnswer(st: Light, cp: nat, r: Instruction, fired: seq<Event>) {
    var n := NewestStandby(st);
    if cp >= |st.slots| then r == MovingError && fired == []
    else if n <= cp then r == (if st.received.Some? then PauseImmediately else MovingError) && fired == []
    else
      && r == (if cp + 1 == n then WaitAtNextCheckpoint else ContinueAtNextCheckpoint)
      && |fired| == 1 && fired[0].DepartedFrom? && Permits(Checkpoint(cp, fired[0].permission), st.version, cp)
  }

  lemma {:induction false} MovingMeans(st: Light, cp: nat)
    requires Inv(st)
    ensures var (now, r, fired) := MovingFrom(st, cp);
      MovingAnswer(st, cp, r, fired) && SameExtent(st, now)
  {
    var at := st.(lastDeparted := Some(cp), lastReached := if st.lastReached < cp then cp else st.lastReached);
    assert Inv(at);
    if cp < |at.slots| && at.received.Some? && cp < at.received.value.standbyAt {
      AcceptKeeps(at);
      var now := Accept(at).0;
      assert now.slots[cp].Some? && Permits(now.slots[cp].value, st.version, cp);
    }
  }

  /** What reports leave alone: the path, its slots, and how far it has been granted. */
  ghost predicate SameExtent(st: Light, now: Light) {
    && now.version == st.version && now.pathSize == st.pathSize && |now.slots| == |st.slots|
    && NewestStandby(now) == NewestStandby(st)
    && (now.standbyAt == st.standbyAt || now.standbyAt == NewestStandby(st))
  }

  /** A batch that ends at or behind the last departure is refused. */
  ghost predicate Refuses(st: Light, departed: Option<nat>) {
    st.received.Some? && departed.Some? && NewestStandby(st) <= departed.value
  }

  ghost function Rejection(st: Light, departed: nat): seq<Event>
    requires st.received.Some?
  {
    var reject := st.received.value.reject;
    if reject.Some? then [Rejected(reject.value, departed)] else []
  }

  /** A refused batch is kept but cannot be rejected again; any other becomes the current permissions. */
  ghost predicate WaitingOutcome(st: Light, departed: Option<nat>, now: Light, r: Option<Instruction>,
                                 fired: seq<Event>)
  {
    && SameExtent(st, now)
    && if Refuses(st, departed) then
         && r == Some(Wait) && fired == Rejection(st, departed.value)
         && now.received.Some? && now.received.value.reject.None?
       else
         r == None && fired == [] && now.received.None? && now.onStandby == NewestCallback(st)
  }

  ghost function NewestCallback(st: Light): Option<nat> {
    if st.received.Some? then Some(st.received.value.onStandby) else st.onStandby
  }

  lemma {:induction false} WaitingMeans(st: Light, departed: Option<nat>)
    requires Inv(st) && st.pathSize > 0
    ensures var (now, r, fired) := HandleWaiting(st, departed); WaitingOutcome(st, departed, now, r, fired)
  {
    var at := st.(lastDeparted := departed);
    assert Inv(at);
    if at.received.Some? {
      AcceptKeeps(at);
    }
  }

  /** A robot past the newest standby is refused once and then told to wait, or has made an error. */
  ghost predicate RefusalAnswer(st: Light, departed: nat, r: Instruction, fired: seq<Event>) {
    if st.received.Some? then r == Wait && fired == Rejection(st, departed) else r == WaitingError && fired == []
  }

  ghost predicate WaitingAtAnswer(st: Light, cp: nat, r: Instruction, fired: seq<Event>) {
    var n := NewestStandby(st);
    if cp >= st.pathSize then r == WaitingError && fired == []
    else if cp < n then r == Resume && fired == []
    else if cp == n then
      var callback := NewestCallback(st);
      r == Wait && fired == if callback.Some? then [StandbyReached(callback.value)] else []
    else RefusalAnswer(st, cp - 1, r, fired)
  }

  lemma {:induction false} WaitAtMeans(st: Light, cp: nat)
    requires Inv(st)
    ensures var (now, r, fired) := WaitingAt(st, cp); WaitingAtAnswer(st, cp, r, fired) && SameExtent(st, now)
  {
    if cp < st.pathSize {
      var at := st.(lastReached := if st.lastReached < cp then cp else st.lastReached);
      assert Inv(at);
      WaitingMeans(at, if cp == 0 then None else Some(cp - 1));
    }
  }

  ghost predicate WaitingAfterAnswer(st: Light, cp: nat, r: Instruction, fired: seq<Event>) {
    if cp >= st.pathSize then r == WaitingError && fired == []
    else if cp < NewestStandby(st) then r == Resume && fired == []
    else RefusalAnswer(st, cp, r, fired)
  }

  lemma {:induction false} WaitAfterMeans(st: Light, cp: nat)
    requires Inv(st)
    ensures var (now, r, fired) := WaitingAfter(st, cp); WaitingAfterAnswer(st, cp, r, fired) && SameExtent(st, now)
  {
    if cp < st.pathSize {
      var at := st.(lastReached := if st.lastReached < cp then cp else st.lastReached);
      assert Inv(at);
      WaitingMeans(at, Some(cp));
    }
  }

  // ---------------------------------------------------------------- whole runs

  /** A run in which every delivery joins on to what the light has been told before. */
  ghost predicate FedRun(st: Light, inputs: seq<Input>)
    decreases |inputs|
  {
    inputs == [] || (Fed(st, inputs[0]) && FedRun(Step(st, inputs[0]).0, inputs[1..]))
  }

  ghost function StateAfter(st: Light, inputs: seq<Input>): Light
    decreases |inputs|
  {
    if inputs == [] then st else StateAfter(Step(st, inputs[0]).0, inputs[1..])
  }

  /** In every run the assertions hold, nothing is indexed out of range, and every departure was permitted. */
  lemma {:induction false} RunIsSafe(st: Light, inputs: seq<Input>, k: nat)
    requires Inv(st) && FedRun(st, inputs) && k < |inputs|
    ensures FedRun(st, inputs[..k]) && Fed(StateAfter(st, inputs[..k]), inputs[k])
    ensures Inv(StateAfter(st, inputs[..k]))
    ensures var (now, r, fired) := Step(StateAfter(st, inputs[..k]), inputs[k]);
      Inv(now) && r != Some(Fault) && SafeEvents(now, inputs[k], fired)
    decreases k
  {
    if k == 0 {
      assert inputs[..0] == [];
      StepIsSafe(st, inputs[0]);
    } else {
      StepIsSafe(st, inputs[0]);
      var next := Step(st, inputs[0]).0;
      RunIsSafe(next, inputs[1..], k - 1);
      assert inputs[..k][1..] == inputs[1..][..k - 1];
      assert StateAfter(st, inputs[..k]) == StateAfter(next, inputs[1..][..k - 1]);
    }
  }

  /**
   A batch, merged or not, trips the assertion about standby exactly when the robot then moves from
   a checkpoint in a gap that the batch leaves above both standbys.
   */
  lemma {:induction false} GapFaultsExactly(st: Light, b: Batch, cp: nat)
    requires Inv(st) && st.pathSize > 0 && cp < |st.slots| && Fits(FirstReceived(b), |st.slots|)
    ensures MovingFrom(Receive(st, st.version, b).0, cp).1 == Fault
       <==> Joint(st) <= cp < b.standbyAt && Lookup(b.checkpoints, cp).None?
  {
    var r := if st.received.Some? then Merged(st.received.value, b) else FirstReceived(b);
    if st.received.Some? {
      MergedFits(st.received.value, b, |st.slots|);
      MergedLookup(st.received.value, b);
    }
    assert AllBelow(r.checkpoints, |st.slots|);
    StoreInRange(st.slots, r.checkpoints);
    TakenAt(st.slots, r, cp);
  }

  /** Once the light has no path, nothing but a new path makes it answer: every report is an error without a call. */
  lemma {:induction false} IdleIsSilent(st: Light, inputs: seq<Input>, k: nat)
    requires Inv(st) && st.pathSize == 0 && k < |inputs| && forall i :: 0 <= i < |inputs| ==> !inputs[i].Path?
    ensures FedRun(st, inputs[..k]) && Fed(StateAfter(st, inputs[..k]), inputs[k])
    ensures var (now, r, fired) := Step(StateAfter(st, inputs[..k]), inputs[k]);
      && Inv(now) && now.pathSize == 0
      && (r.Some? ==> r.value == MovingError || r.value == WaitingError)
      && forall e :: e in fired ==> e == Pause
    decreases k
  {
    if k > 0 {
      var next := Step(st, inputs[0]).0;
      StepIsSafe(st, inputs[0]);
      IdleIsSilent(next, inputs[1..], k - 1);
      assert inputs[..k][1..] == inputs[1..][..k - 1];
      assert StateAfter(st, inputs[..k]) == StateAfter(next, inputs[1..][..k - 1]);
    } else {
      assert inputs[..0] == [];
      StepIsSafe(st, inputs[0]);
    }
  }
}
