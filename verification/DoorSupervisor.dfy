/**
 The door supervisor: robots ask for doors to be opened and closed, the supervisor logs who wants
 which door open, and publishes final requests to the doors and heartbeats to the robots.  Request
 messages may be delayed, lost, repeated and reordered.
 */
module DoorSupervisors {
  import opened Waypoints

  datatype Mode = Closed | Moving | Open | Unknown

  datatype Event =
    | Request(door: string, who: string, time: int, mode: Mode)
    | State(door: string, mode: Mode)

  datatype Session = Session(who: string, time: int)
  datatype DoorSessions = DoorSessions(door: string, sessions: seq<Session>)
  datatype Ask = Ask(door: string, mode: Mode)

  /** What one message makes the supervisor publish: a request to a door, then a heartbeat. */
  datatype Output = Output(ask: Option<Ask>, heartbeat: Option<seq<DoorSessions>>)

  type Log = map<string, map<string, int>>

  /** The time logged for one requester at one door. */
  function Entry(log: Log, door: string, who: string): Option<int> {
    if door in log && who in log[door] then Some(log[door][who]) else None
  }

  ghost predicate Wanted(log: Log, door: string) {
    exists who :: Entry(log, door, who).Some?
  }

  // ---------------------------------------------------------------- heartbeats

  ghost predicate ListsSessions(list: seq<Session>, sessions: map<string, int>) {
    && |list| == |sessions|
    && forall s :: s in list <==> s.who in sessions && sessions[s.who] == s.time
  }

  /** The message lists every logged door once, with exactly its sessions. */
  ghost predicate Reflects(all: seq<DoorSessions>, log: Log) {
    && (forall i :: 0 <= i < |all| ==> all[i].door in log && ListsSessions(all[i].sessions, log[all[i].door]))
    && (forall i, j :: 0 <= i < j < |all| ==> all[i].door != all[j].door)
    && (forall door :: door in log ==> exists i :: 0 <= i < |all| && all[i].door == door)
  }

  /** What a robot sees of a heartbeat: only the first entry of the door is searched. */
  ghost predicate Lists(all: seq<DoorSessions>, door: string, who: string) {
    exists i, s :: 0 <= i < |all| && all[i].door == door && (forall j :: 0 <= j < i ==> all[j].door != door)
                   && s in all[i].sessions && s.who == who
  }

  lemma {:induction false} ReflectedEntry(all: seq<DoorSessions>, log: Log, door: string, who: string)
    requires Reflects(all, log)
    ensures Lists(all, door, who) <==> Entry(log, door, who).Some?
  {
    if Entry(log, door, who).Some? {
      var i :| 0 <= i < |all| && all[i].door == door;
      assert ListsSessions(all[i].sessions, log[door]);
      assert Session(who, log[door][who]) in all[i].sessions;
    }
  }

  method ListSessions(sessions: map<string, int>) returns (list: seq<Session>)
    ensures ListsSessions(list, sessions)
  {
    list := [];
    var rest := sessions.Keys;
    while rest != {}
      invariant rest <= sessions.Keys && |list| + |rest| == |sessions|
      invariant forall s :: s in list <==> s.who in sessions && s.who !in rest && sessions[s.who] == s.time
      decreases |rest|
    {
      var who :| who in rest;
      list := list + [Session(who, sessions[who])];
      rest := rest - {who};
    }
  }

  /** A robot looks for its own session in a heartbeat. */
  method SupervisorHasSession(all: seq<DoorSessions>, who: string, door: string) returns (found: bool)
    ensures found <==> Lists(all, door, who)
  {
    var i := 0;
    while i < |all| && all[i].door != door
      invariant 0 <= i <= |all|
      invariant forall j :: 0 <= j < i ==> all[j].door != door
    {
      i := i + 1;
    }
    if i == |all| {
      return false;
    }
    var k, list := 0, all[i].sessions;
    while k < |list| && list[k].who != who
      invariant 0 <= k <= |list|
      invariant forall j :: 0 <= j < k ==> list[j].who != who
    {
      k := k + 1;
    }
    found := k < |list|;
    assert found ==> list[k] in all[i].sessions;
  }

  // ---------------------------------------------------------------- one message

  predicate Concerns(e: Event, door: string, who: string, mode: Mode) {
    e.Request? && e.door == door && e.who == who && e.mode == mode
  }

  /** What a message does to the entry of one requester at one door. */
  function EntryAfter(entry: Option<int>, e: Event, door: string, who: string): Option<int> {
    if Concerns(e, door, who, Open) then
      Some(if entry.Some? && e.time < entry.value then entry.value else e.time)
    else if Concerns(e, door, who, Closed) && entry.Some? && entry.value <= e.time then None
    else entry
  }

  /** The request published to the door of the message. */
  ghost function Asked(before: Log, e: Event, after: Log): Option<Mode> {
    match e
    case Request(door, who, time, mode) =>
      if mode == Open then Some(Open)
      else if mode == Closed && Wanted(before, door) && !Wanted(after, door) then Some(Closed)
      else None
    case State(door, mode) =>
      if !Wanted(before, door) && (mode == Open || mode == Moving) then Some(Closed)
      else if Wanted(before, door) && (mode == Closed || mode == Moving) then Some(Open)
      else None
  }

  /** Every entry of the log moves as the message says. */
  ghost predicate Moves(before: Log, e: Event, after: Log) {
    forall door, who :: Entry(after, door, who) == EntryAfter(Entry(before, door, who), e, door, who)
  }

  ghost predicate Announces(before: Log, e: Event, after: Log, output: Output) {
    && (var mode := Asked(before, e, after); output.ask == if mode.Some? then Some(Ask(e.door, mode.value)) else None)
    && (output.heartbeat.Some? <==> e.Request? && (e.mode == Open || e.mode == Closed))
    && (output.heartbeat.Some? ==> Reflects(output.heartbeat.value, after))
  }

  datatype Moment = Moment(event: Event, log: Log, output: Output)

  ghost predicate Step(before: Log, m: Moment) {
    Moves(before, m.event, m.log) && Announces(before, m.event, m.log, m.output)
  }

  lemma OpenMoves(before: Log, door: string, who: string, time: int, after: Log)
    requires var requests := if door in before then before[door] else map[];
      after == before[door := if who in requests && time <= requests[who] then requests else requests[who := time]]
    ensures Moves(before, Request(door, who, time, Open), after)
  {
    forall d, w
      ensures Entry(after, d, w) == EntryAfter(Entry(before, d, w), Request(door, who, time, Open), d, w)
    {
      if d != door {
        assert Entry(after, d, w) == Entry(before, d, w);
      } else if w != who {
        assert Entry(after, d, w) == Entry(before, d, w);
      }
    }
  }

  class DoorSupervisor {
    var log: Log

    constructor ()
      ensures log == map[]
    {
      log := map[];
    }

    method PublishHeartbeat() returns (all: seq<DoorSessions>)
      ensures Reflects(all, log)
    {
      all := [];
      var rest := log.Keys;
      while rest != {}
        invariant rest <= log.Keys
        invariant forall i :: 0 <= i < |all| ==>
          all[i].door in log && all[i].door !in rest && ListsSessions(all[i].sessions, log[all[i].door])
        invariant forall i, j :: 0 <= i < j < |all| ==> all[i].door != all[j].door
        invariant forall door :: door in log && door !in rest ==> exists i :: 0 <= i < |all| && all[i].door == door
        decreases |rest|
      {
        var door :| door in rest;
        var list := ListSessions(log[door]);
        ghost var was := all;
        all := all + [DoorSessions(door, list)];
        rest := rest - {door};
        assert all[|was|].door == door;
        assert forall i :: 0 <= i < |was| ==> all[i] == was[i];
      }
    }

    method ProcessOpenRequest(door: string, who: string, time: int) returns (output: Output)
      modifies this
      ensures Step(old(log), Moment(Request(door, who, time, Open), log, output))
    {
      ghost var before := log;
      if door !in log {
        log := log[door := map[]];
      }
      if who !in log[door] || log[door][who] < time {
        log := log[door := log[door][who := time]];
      }
      assert Moves(before, Request(door, who, time, Open), log) by {
        OpenMoves(before, door, who, time, log);
      }
      var all := PublishHeartbeat();
      output := Output(Some(Ask(door, Open)), Some(all));
    }

    method ProcessCloseRequest(door: string, who: string, time: int) returns (output: Output)
      modifies this
      ensures Step(old(log), Moment(Request(door, who, time, Closed), log, output))
    {
      var ask := None;
      if door in log && who in log[door] && log[door][who] <= time {
        assert Entry(log, door, who).Some?;
        log := log[door := log[door] - {who}];
        if log[door] == map[] {
          ask := Some(Ask(door, Closed));
        } else {
          var other :| other in log[door];
          assert Entry(log, door, other).Some?;
        }
      }
      var all := PublishHeartbeat();
      output := Output(ask, Some(all));
    }

    method DoorStateUpdate(door: string, mode: Mode) returns (output: Output)
      ensures Step(log, Moment(State(door, mode), log, output))
    {
      output := Output(None, None);
      if door !in log || log[door] == map[] {
        if mode == Open || mode == Moving {
          output := Output(Some(Ask(door, Closed)), None);
        }
      } else {
        var who :| who in log[door];
        assert Entry(log, door, who).Some?;
        if mode == Closed || mode == Moving {
          output := Output(Some(Ask(door, Open)), None);
        }
      }
    }

    /** Any message, of either topic. */
    method Receive(e: Event) returns (output: Output)
      modifies this
      ensures Step(old(log), Moment(e, log, output))
    {
      output := Output(None, None);
      match e {
        case Request(door, who, time, mode) =>
          if mode == Open {
            output := ProcessOpenRequest(door, who, time);
          } else if mode == Closed {
            output := ProcessCloseRequest(door, who, time);
          }
        case State(door, mode) =>
          output := DoorStateUpdate(door, mode);
      }
    }
  }

  // ---------------------------------------------------------------- whole runs

  ghost function LogAfter(run: seq<Moment>): Log {
    if run == [] then map[] else run[|run| - 1].log
  }

  /** A run from the empty log; the messages may come in any order. */
  ghost predicate IsRun(run: seq<Moment>) {
    forall n :: 0 <= n < |run| ==> StepAt(run, n)
  }

  /** Moment `n` is a step from the log left by the moments before it. */
  ghost predicate StepAt(run: seq<Moment>, n: nat)
    requires n < |run|
  {
    Step(LogAfter(run[..n]), run[n])
  }

  /** A supervisor that receives any messages, in any order, goes through such a run. */
  method ReceiveAll(supervisor: DoorSupervisor, events: seq<Event>) returns (run: seq<Moment>)
    requires supervisor.log == map[]
    modifies supervisor
    ensures IsRun(run) && Events(run) == events && supervisor.log == LogAfter(run)
  {
    run := [];
    for i := 0 to |events|
      invariant IsRun(run) && Events(run) == events[..i] && supervisor.log == LogAfter(run)
    {
      ghost var before := run;
      var output := supervisor.Receive(events[i]);
      run := run + [Moment(events[i], supervisor.log, output)];
      Longer(before, run);
    }
  }

  lemma {:induction false} Longer(before: seq<Moment>, run: seq<Moment>)
    requires IsRun(before) && |run| == |before| + 1 && run[..|before|] == before
    requires Step(LogAfter(before), run[|before|])
    ensures IsRun(run) && Events(run) == Events(before) + [run[|before|].event]
  {
    forall n | 0 <= n < |run| ensures StepAt(run, n) {
      if n < |before| {
        SameStep(before, run, n);
      }
    }
    assert forall n :: 0 <= n < |before| ==> run[n] == before[n];
  }

  lemma {:induction false} SameStep(before: seq<Moment>, run: seq<Moment>, n: nat)
    requires n < |before| <= |run| && run[..|before|] == before
    ensures StepAt(run, n) <==> StepAt(before, n)
  {
    assert run[..n] == before[..n] && run[n] == before[n];
  }

  ghost function Events(run: seq<Moment>): (events: seq<Event>)
    ensures |events| == |run| && forall i :: 0 <= i < |run| ==> events[i] == run[i].event
  {
    seq(|run|, i requires 0 <= i < |run| => run[i].event)
  }

  /** The open request at position `i` was not followed by a close request at its time or later. */
  ghost predicate Stands(events: seq<Event>, i: nat, door: string, who: string) {
    && i < |events| && Concerns(events[i], door, who, Open)
    && forall j :: i < j < |events| && Concerns(events[j], door, who, Closed) ==> events[j].time < events[i].time
  }

  /** The entry of one requester at one door after the messages. */
  ghost function Tracked(events: seq<Event>, door: string, who: string): Option<int> {
    if events == [] then None
    else var n := |events| - 1; EntryAfter(Tracked(events[..n], door, who), events[n], door, who)
  }

  lemma {:induction false} RunTracks(run: seq<Moment>, door: string, who: string)
    requires IsRun(run)
    ensures Entry(LogAfter(run), door, who) == Tracked(Events(run), door, who)
    decreases |run|
  {
    if run != [] {
      var n := |run| - 1;
      LastMoment(run, door, who);
      RunTracks(run[..n], door, who);
      LastTracked(run, n, door, who);
    }
  }

  lemma {:induction false} LastTracked(run: seq<Moment>, n: nat, door: string, who: string)
    requires |run| == n + 1
    ensures Tracked(Events(run), door, who)
         == EntryAfter(Tracked(Events(run[..n]), door, who), run[n].event, door, who)
  {
    assert Events(run)[..n] == Events(run[..n]);
  }

  lemma {:induction false} LastMoment(run: seq<Moment>, door: string, who: string)
    requires IsRun(run) && run != []
    ensures var n := |run| - 1;
      && IsRun(run[..n])
      && Entry(LogAfter(run), door, who) == EntryAfter(Entry(LogAfter(run[..n]), door, who), run[n].event, door, who)
  {
    PrefixIsRun(run, |run| - 1);
    assert StepAt(run, |run| - 1);
  }

  lemma {:induction false} PrefixIsRun(run: seq<Moment>, n: nat)
    requires IsRun(run) && n <= |run|
    ensures IsRun(run[..n])
  {
    forall k | 0 <= k < n ensures StepAt(run[..n], k) {
      SameStep(run[..n], run, k);
    }
  }

  /** An open request that stands keeps its session in the log, at its time or later. */
  lemma {:induction false} StandingIsTracked(events: seq<Event>, i: nat, door: string, who: string)
    requires Stands(events, i, door, who)
    ensures Tracked(events, door, who).Some? && events[i].time <= Tracked(events, door, who).value
    decreases |events|
  {
    var n := |events| - 1;
    if i < n {
      StandingIsTracked(events[..n], i, door, who);
    }
  }

  /** A session in the log comes from an open request of the logged time that stands. */
  lemma {:induction false} TrackedStands(events: seq<Event>, door: string, who: string) returns (i: nat)
    requires Tracked(events, door, who).Some?
    ensures Stands(events, i, door, who) && Tracked(events, door, who) == Some(events[i].time)
    decreases |events|
  {
    var n := |events| - 1;
    var earlier := Tracked(events[..n], door, who);
    if earlier == Tracked(events, door, who) {
      i := TrackedStands(events[..n], door, who);
    } else {
      i := n;
    }
  }

  /**
   Door safety: in every run, whatever the order of the messages, a requester has a session at a
   door exactly when one of its open requests stands.
   */
  lemma {:induction false} SessionIffStanding(run: seq<Moment>, door: string, who: string)
    requires IsRun(run)
    ensures Entry(LogAfter(run), door, who).Some? <==> exists i :: Stands(Events(run), i, door, who)
  {
    RunTracks(run, door, who);
    var events := Events(run);
    if Tracked(events, door, who).Some? {
      var i := TrackedStands(events, door, who);
    }
    forall i | Stands(events, i, door, who) ensures Tracked(events, door, who).Some? {
      StandingIsTracked(events, i, door, who);
    }
  }

  /** The log after message `n` of a run. */
  lemma {:induction false} AtMoment(run: seq<Moment>, n: nat, door: string, who: string)
    requires IsRun(run) && n < |run|
    ensures Entry(run[n].log, door, who).Some? <==> StandingAt(run, n, door, who)
  {
    PrefixIsRun(run, n + 1);
    SessionIffStanding(run[..n + 1], door, who);
  }

  /** Some open request stands once message `n` is processed. */
  ghost predicate StandingAt(run: seq<Moment>, n: nat, door: string, who: string)
    requires n < |run|
  {
    var sofar := Events(run[..n + 1]);
    exists i :: Stands(sofar, i, door, who)
  }

  /** The door is asked to close only when no open request for it, from anybody, stands. */
  lemma {:induction false} ClosesOnlyUnwanted(run: seq<Moment>, n: nat, door: string, who: string)
    requires IsRun(run) && n < |run| && run[n].output.ask == Some(Ask(door, Closed))
    ensures !StandingAt(run, n, door, who)
  {
    AtMoment(run, n, door, who);
    assert StepAt(run, n);
    assert run[n].event.State? ==> Entry(run[n].log, door, who) == Entry(LogAfter(run[..n]), door, who);
  }

  /** A door reported closed or moving while an open request for it stands is asked to open again. */
  lemma {:induction false} ReopensWanted(run: seq<Moment>, n: nat, who: string)
    requires IsRun(run) && n < |run| && run[n].event.State? && run[n].event.mode in {Closed, Moving}
    requires StandingAt(run, n, run[n].event.door, who)
    ensures run[n].output.ask == Some(Ask(run[n].event.door, Open))
  {
    AtMoment(run, n, run[n].event.door, who);
    assert StepAt(run, n);
    assert Entry(LogAfter(run[..n]), run[n].event.door, who).Some?;
  }

  /** Somebody's open request for the door stands after the first `n` messages. */
  ghost predicate StandsOpen(run: seq<Moment>, n: nat, door: string)
    requires n <= |run|
  {
    exists who, i :: Stands(Events(run[..n]), i, door, who)
  }

  lemma {:induction false} WantedIffStanding(run: seq<Moment>, n: nat, door: string)
    requires IsRun(run) && n <= |run|
    ensures Wanted(LogAfter(run[..n]), door) <==> StandsOpen(run, n, door)
  {
    PrefixIsRun(run, n);
    var log, events := LogAfter(run[..n]), Events(run[..n]);
    if Wanted(log, door) {
      var who :| Entry(log, door, who).Some?;
      SessionIffStanding(run[..n], door, who);
      var i :| Stands(events, i, door, who);
    }
    forall who, i | Stands(events, i, door, who) ensures Entry(log, door, who).Some? {
      SessionIffStanding(run[..n], door, who);
    }
  }

  /**
   What a door is asked, in every run: every open request asks it to open, a close request asks it to
   close exactly when it removes the last open request that stood, and a reported state brings a
   reminder exactly when it disagrees with the open requests that stand.
   */
  lemma {:induction false} AsksExactly(run: seq<Moment>, n: nat)
    requires IsRun(run) && n < |run|
    ensures var e := run[n].event;
      var before, after := StandsOpen(run, n, e.door), StandsOpen(run, n + 1, e.door);
      run[n].output.ask ==
        if e.Request? && e.mode == Open then Some(Ask(e.door, Open))
        else if e.Request? && e.mode == Closed && before && !after then Some(Ask(e.door, Closed))
        else if e.State? && e.mode in {Open, Moving} && !before then Some(Ask(e.door, Closed))
        else if e.State? && e.mode in {Closed, Moving} && before then Some(Ask(e.door, Open))
        else None
  {
    WantedIffStanding(run, n, run[n].event.door);
    WantedIffStanding(run, n + 1, run[n].event.door);
    assert run[..n + 1][n] == run[n];
    assert StepAt(run, n);
  }

  /** Every heartbeat lists exactly the requesters with an open request that stands. */
  lemma {:induction false} HeartbeatShowsStanding(run: seq<Moment>, n: nat, door: string, who: string)
    requires IsRun(run) && n < |run| && run[n].output.heartbeat.Some?
    ensures Lists(run[n].output.heartbeat.value, door, who) <==> StandingAt(run, n, door, who)
  {
    AtMoment(run, n, door, who);
    assert StepAt(run, n);
    ReflectedEntry(run[n].output.heartbeat.value, run[n].log, door, who);
  }

  /** A close request that overtakes the open request it answers leaves the door wanted. */
  lemma {:induction false} OrderMatters(run: seq<Moment>, swapped: seq<Moment>, door: string, who: string, t: int)
    requires IsRun(run) && IsRun(swapped) && |run| == |swapped| == 2
    requires run[0].event == swapped[1].event == Request(door, who, t, Open)
    requires run[1].event == swapped[0].event == Request(door, who, t + 1, Closed)
    ensures !Wanted(LogAfter(run), door) && Wanted(LogAfter(swapped), door)
  {
    SessionIffStanding(swapped, door, who);
    assert Stands(Events(swapped), 1, door, who);
    forall other ensures Entry(LogAfter(run), door, other).None? {
      SessionIffStanding(run, door, other);
    }
  }
}
