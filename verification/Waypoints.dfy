/**
 Trajectories as values: waypoint lists in time order, the edits a trajectory
 offers on them, and the same edits on a plain time-to-state table.
 */
module Waypoints {
  import opened OrderMaps

  datatype Option<T> = None | Some(value: T)

  datatype Vec3 = Vec3(x: real, y: real, yaw: real)

  datatype Waypoint = Waypoint(time: Time, position: Vec3, velocity: Vec3) {
    function State(): (Vec3, Vec3) { (position, velocity) }
  }

  ghost predicate InOrder(ws: seq<Waypoint>) {
    forall i, j :: 0 <= i < j < |ws| ==> ws[i].time < ws[j].time
  }

  /** Number of waypoints before time `t`. */
  ghost function LowerIndex(ws: seq<Waypoint>, t: Time): (r: nat)
    ensures r <= |ws|
    ensures forall i :: 0 <= i < r ==> ws[i].time < t
    ensures r < |ws| ==> t <= ws[r].time
  {
    if ws == [] || t <= ws[0].time then 0
    else
      var r := LowerIndex(ws[1..], t);
      assert forall i :: 1 <= i < r + 1 ==> ws[i] == ws[1..][i - 1];
      r + 1
  }

  lemma {:induction false} LowerIndexIs(ws: seq<Waypoint>, t: Time, k: nat)
    requires k <= |ws|
    requires forall i :: 0 <= i < k ==> ws[i].time < t
    requires k < |ws| ==> t <= ws[k].time
    ensures LowerIndex(ws, t) == k
    decreases k
  {
    if k > 0 {
      LowerIndexIs(ws[1..], t, k - 1);
    }
  }

  ghost predicate HasTime(ws: seq<Waypoint>, t: Time) {
    var k := LowerIndex(ws, t);
    k < |ws| && ws[k].time == t
  }

  // ---------------------------------------------------------------- edits on lists

  ghost function Inserted(ws: seq<Waypoint>, w: Waypoint): seq<Waypoint> {
    var k := LowerIndex(ws, w.time);
    if HasTime(ws, w.time) then ws else ws[..k] + [w] + ws[k..]
  }

  ghost function Removed(ws: seq<Waypoint>, from: nat, to: nat): seq<Waypoint>
    requires from <= to <= |ws|
  {
    ws[..from] + ws[to..]
  }

  ghost function Retimed(ws: seq<Waypoint>, i: nat, t: Time): seq<Waypoint>
    requires i < |ws|
  {
    Inserted(Removed(ws, i, i + 1), ws[i].(time := t))
  }

  ghost function Shifted(ws: seq<Waypoint>, delta: int): (r: seq<Waypoint>)
    ensures |r| == |ws|
    ensures forall i :: 0 <= i < |ws| ==> r[i] == ws[i].(time := ws[i].time + delta)
  {
    if ws == [] then [] else [ws[0].(time := ws[0].time + delta)] + Shifted(ws[1..], delta)
  }

  ghost function ShiftedFrom(ws: seq<Waypoint>, i: nat, delta: int): seq<Waypoint>
    requires i <= |ws|
  {
    ws[..i] + Shifted(ws[i..], delta)
  }

  /** The shift keeps waypoint `i` after its predecessor. */
  predicate ShiftAllowed(ws: seq<Waypoint>, i: nat, delta: int)
    requires i < |ws|
  {
    delta >= 0 || i == 0 || ws[i - 1].time < ws[i].time + delta
  }

  // ---------------------------------------------------------------- lists as lookup tables

  /** The state stored for a time. */
  ghost function Get(ws: seq<Waypoint>, t: Time): Option<(Vec3, Vec3)> {
    if HasTime(ws, t) then Some(ws[LowerIndex(ws, t)].State()) else None
  }

  lemma {:induction false} GetAt(ws: seq<Waypoint>, i: nat)
    requires InOrder(ws) && i < |ws|
    ensures LowerIndex(ws, ws[i].time) == i && Get(ws, ws[i].time) == Some(ws[i].State())
  {
    LowerIndexIs(ws, ws[i].time, i);
  }

  /** Reading a waypoint's slot: whoever has the time has the state. */
  lemma {:induction false} GetIs(ws: seq<Waypoint>, i: nat, t: Time, s: (Vec3, Vec3))
    requires InOrder(ws) && i < |ws| && ws[i].time == t && ws[i].State() == s
    ensures Get(ws, t) == Some(s)
  {
    GetAt(ws, i);
  }

  /** Two lists in time order with the same states at the same times are the same list. */
  lemma {:induction false} OrderDeterminesList(a: seq<Waypoint>, b: seq<Waypoint>)
    requires InOrder(a) && InOrder(b) && forall t :: Get(a, t) == Get(b, t)
    ensures a == b
    decreases |a|
  {
    if a == [] || b == [] {
      if a != [] { GetAt(a, 0); assert false; }
      if b != [] { GetAt(b, 0); assert false; }
    } else {
      GetAt(a, 0);
      GetAt(b, 0);
      var i, j := LowerIndex(b, a[0].time), LowerIndex(a, b[0].time);
      assert Get(b, a[0].time) == Get(a, a[0].time) && Get(a, b[0].time) == Get(b, b[0].time);
      assert b[0].time <= b[i].time == a[0].time <= a[j].time == b[0].time;
      var a', b' := a[1..], b[1..];
      forall t ensures Get(a', t) == Get(b', t) {
        GetTail(a, t);
        GetTail(b, t);
        assert Get(a, t) == Get(b, t);
      }
      OrderDeterminesList(a', b');
      assert a == [a[0]] + a' && b == [b[0]] + b';
    }
  }

  lemma {:induction false} GetTail(ws: seq<Waypoint>, t: Time)
    requires ws != [] && InOrder(ws)
    ensures Get(ws[1..], t) == if t == ws[0].time then None else Get(ws, t)
  {
    var rest := ws[1..];
    if t <= ws[0].time {
      LowerIndexIs(rest, t, 0);
    }
  }

  // ---------------------------------------------------------------- what an edit does to every time

  lemma {:induction false} InsertedInOrder(ws: seq<Waypoint>, w: Waypoint)
    requires InOrder(ws)
    ensures InOrder(Inserted(ws, w))
  {
    if !HasTime(ws, w.time) {
      var k, now := LowerIndex(ws, w.time), Inserted(ws, w);
      forall i, j | 0 <= i < j < |now| ensures now[i].time < now[j].time {
        assert i != k ==> now[i] == ws[if i < k then i else i - 1];
        assert j != k ==> now[j] == ws[if j < k then j else j - 1];
        if j > k { assert ws[k].time <= ws[j - 1].time; }
      }
    }
  }

  lemma {:induction false} InsertedGet(ws: seq<Waypoint>, w: Waypoint, t: Time)
    requires InOrder(ws)
    ensures Get(Inserted(ws, w), t) == if t == w.time && !HasTime(ws, t) then Some(w.State()) else Get(ws, t)
  {
    var now := Inserted(ws, w);
    if !HasTime(ws, w.time) {
      var k, i := LowerIndex(ws, w.time), LowerIndex(ws, t);
      InsertedInOrder(ws, w);
      if t == w.time {
        GetIs(now, k, t, w.State());
      } else {
        LowerIndexIs(now, t, if w.time < t then i + 1 else i);
      }
    }
  }

  lemma {:induction false} RemovedInOrder(ws: seq<Waypoint>, from: nat, to: nat)
    requires InOrder(ws) && from <= to <= |ws|
    ensures InOrder(Removed(ws, from, to))
  {
  }

  /** Where the elements before and after a removed range end up. */
  lemma {:induction false} RemovedAt(ws: seq<Waypoint>, from: nat, to: nat, k: nat)
    requires from <= to <= |ws| && k < |Removed(ws, from, to)|
    ensures Removed(ws, from, to)[k] == ws[if k < from then k else k + (to - from)]
  {
  }

  lemma {:induction false} RemovedLowerIndex(ws: seq<Waypoint>, from: nat, to: nat, t: Time, i: nat, k: nat)
    requires InOrder(ws) && from <= to <= |ws| && i == LowerIndex(ws, t)
    requires k == if i < from then i else if i < to then from else i - (to - from)
    ensures LowerIndex(Removed(ws, from, to), t) == k
  {
    var now := Removed(ws, from, to);
    forall n | 0 <= n < k ensures now[n].time < t {
      RemovedAt(ws, from, to, n);
    }
    if k < |now| {
      RemovedAt(ws, from, to, k);
      if from <= i < to { assert ws[i].time < ws[to].time; }
    }
    LowerIndexIs(now, t, k);
  }

  lemma {:induction false} RemovedGet(ws: seq<Waypoint>, from: nat, to: nat, t: Time)
    requires InOrder(ws) && from <= to <= |ws|
    ensures Get(Removed(ws, from, to), t)
         == if from <= LowerIndex(ws, t) < to && HasTime(ws, t) then None else Get(ws, t)
  {
    var i := LowerIndex(ws, t);
    if from <= i < to {
      RemovedGone(ws, from, to, t, i);
    } else {
      RemovedKept(ws, from, to, t, i);
    }
  }

  lemma {:induction false} RemovedGone(ws: seq<Waypoint>, from: nat, to: nat, t: Time, i: nat)
    requires InOrder(ws) && from <= i < to <= |ws| && i == LowerIndex(ws, t)
    ensures Get(Removed(ws, from, to), t) == None
  {
    var now := Removed(ws, from, to);
    RemovedLowerIndex(ws, from, to, t, i, from);
    if to < |ws| {
      RemovedAt(ws, from, to, from);
      assert ws[i].time < ws[to].time;
    }
    NoSlot(now, from, t);
  }

  lemma {:induction false} RemovedKept(ws: seq<Waypoint>, from: nat, to: nat, t: Time, i: nat)
    requires InOrder(ws) && from <= to <= |ws| && i == LowerIndex(ws, t) && !(from <= i < to)
    ensures Get(Removed(ws, from, to), t) == Get(ws, t)
  {
    var now, k := Removed(ws, from, to), if i < from then i else i - (to - from);
    RemovedLowerIndex(ws, from, to, t, i, k);
    if k < |now| { RemovedAt(ws, from, to, k); }
    SameSlot(ws, i, now, k, t);
  }

  lemma {:induction false} SameSlot(a: seq<Waypoint>, i: nat, b: seq<Waypoint>, k: nat, t: Time)
    requires i == LowerIndex(a, t) && k == LowerIndex(b, t) && (i < |a| <==> k < |b|) && (i < |a| ==> a[i] == b[k])
    ensures Get(a, t) == Get(b, t)
  {
  }

  lemma {:induction false} NoSlot(ws: seq<Waypoint>, k: nat, t: Time)
    requires k == LowerIndex(ws, t) && (k < |ws| ==> ws[k].time != t)
    ensures Get(ws, t) == None
  {
  }

  lemma {:induction false} RetimedInOrder(ws: seq<Waypoint>, i: nat, t: Time)
    requires InOrder(ws) && i < |ws|
    ensures InOrder(Retimed(ws, i, t))
  {
    RemovedInOrder(ws, i, i + 1);
    InsertedInOrder(Removed(ws, i, i + 1), ws[i].(time := t));
  }

  lemma {:induction false} RetimedGet(ws: seq<Waypoint>, i: nat, to: Time, t: Time)
    requires InOrder(ws) && i < |ws| && (to == ws[i].time || !HasTime(ws, to))
    ensures Get(Retimed(ws, i, to), t)
         == if t == to then Some(ws[i].State()) else if t == ws[i].time then None else Get(ws, t)
  {
    var rest := Removed(ws, i, i + 1);
    RemovedInOrder(ws, i, i + 1);
    InsertedGet(rest, ws[i].(time := to), t);
    RemovedGet(ws, i, i + 1, t);
    RemovedGet(ws, i, i + 1, to);
    GetAt(ws, i);
  }

  lemma {:induction false} ShiftedFromAt(ws: seq<Waypoint>, i: nat, delta: int, k: nat)
    requires i <= |ws| && k < |ws|
    ensures |ShiftedFrom(ws, i, delta)| == |ws|
    ensures ShiftedFrom(ws, i, delta)[k] == if k < i then ws[k] else ws[k].(time := ws[k].time + delta)
  {
  }

  lemma {:induction false} ShiftedFromInOrder(ws: seq<Waypoint>, i: nat, delta: int)
    requires InOrder(ws) && i < |ws| && ShiftAllowed(ws, i, delta)
    ensures InOrder(ShiftedFrom(ws, i, delta))
  {
    var now := ShiftedFrom(ws, i, delta);
    forall j, k | 0 <= j < k < |now| ensures now[j].time < now[k].time {
      ShiftedFromAt(ws, i, delta, j);
      ShiftedFromAt(ws, i, delta, k);
      if j < i <= k {
        assert ws[j].time <= ws[i - 1].time && ws[i].time <= ws[k].time;
      }
    }
  }

  lemma {:induction false} ShiftedFromGet(ws: seq<Waypoint>, i: nat, delta: int, t: Time)
    requires InOrder(ws) && i < |ws| && ShiftAllowed(ws, i, delta)
    ensures Get(ShiftedFrom(ws, i, delta), t)
         == if ws[i].time <= t - delta then Get(ws, t - delta) else if t < ws[i].time then Get(ws, t) else None
  {
    var now := ShiftedFrom(ws, i, delta);
    ShiftedFromInOrder(ws, i, delta);
    forall k | 0 <= k < |ws|
      ensures |now| == |ws| && now[k] == if k < i then ws[k] else ws[k].(time := ws[k].time + delta)
    {
      ShiftedFromAt(ws, i, delta, k);
    }
    if ws[i].time <= t - delta {
      var k := LowerIndex(ws, t - delta);
      assert i <= k;
      ShiftedLowerIndex(ws, now, i, delta, t, k);
    } else {
      var k := if t < ws[i].time then LowerIndex(ws, t) else i;
      assert k <= i;
      LowerIndexIs(now, t, k);
    }
  }

  lemma {:induction false} ShiftedLowerIndex(ws: seq<Waypoint>, now: seq<Waypoint>, i: nat, delta: int, t: Time, k: nat)
    requires InOrder(ws) && InOrder(now) && i <= k <= |ws| == |now| && i < |ws| && k == LowerIndex(ws, t - delta)
    requires forall n :: i <= n < |ws| ==> now[n].time == ws[n].time + delta
    requires ws[i].time <= t - delta
    ensures LowerIndex(now, t) == k
  {
    forall n | 0 <= n < k ensures now[n].time < t {
      if n < i {
        assert now[n].time < now[i].time;
      }
    }
    LowerIndexIs(now, t, k);
  }

  // ---------------------------------------------------------------- runs of edits

  /** A plain table from times to states. */
  type Table = Time -> Option<(Vec3, Vec3)>

  ghost predicate Agree(ws: seq<Waypoint>, table: Table) {
    forall t :: Get(ws, t) == table(t)
  }

  datatype Edit =
    | Insert(w: Waypoint)
    | ChangeTime(at: Time, to: Time)
    | AdjustTimes(from: Time, delta: int)
    | EraseOne(at: Time)
    | Erase(first: Time, last: Option<Time>)
    | Copy

  /** When the trajectory accepts the edit instead of throwing. */
  ghost predicate Accepted(table: Table, e: Edit) {
    match e
    case Insert(_) => true
    case Copy => true
    case EraseOne(at) => table(at).Some?
    case ChangeTime(at, to) => table(at).Some? && (to == at || table(to).None?)
    case AdjustTimes(from, delta) =>
      table(from).Some? && (delta >= 0 || forall t :: t < from && table(t).Some? ==> t < from + delta)
    case Erase(first, last) => table(first).Some? && (last.Some? ==> table(last.value).Some? && first <= last.value)
  }

  predicate InRange(t: Time, first: Time, last: Option<Time>) {
    first <= t && (last.None? || t < last.value)
  }

  ghost function Adjusted(table: Table, from: Time, delta: int, t: Time): Option<(Vec3, Vec3)> {
    if from <= t - delta then table(t - delta) else if t < from then table(t) else None
  }

  /** The edit on the table, time by time. */
  ghost function ApplyToTable(table: Table, e: Edit): Table {
    match e
    case Insert(w) => t => if t == w.time && table(t).None? then Some(w.State()) else table(t)
    case ChangeTime(at, to) => t => if t == to then table(at) else if t == at then None else table(t)
    case AdjustTimes(from, delta) => t => Adjusted(table, from, delta, t)
    case EraseOne(at) => t => if t == at then None else table(t)
    case Copy => table
    case Erase(first, last) => t => if InRange(t, first, last) then None else table(t)
  }

  ghost function EndIndex(ws: seq<Waypoint>, last: Option<Time>): (r: nat)
    ensures r <= |ws|
  {
    if last.None? then |ws| else LowerIndex(ws, last.value)
  }

  /** The edit on the list, at the position of its time; the list itself when the time is missing. */
  ghost function ApplyToList(ws: seq<Waypoint>, e: Edit): seq<Waypoint> {
    match e
    case Insert(w) => Inserted(ws, w)
    case ChangeTime(at, to) => if HasTime(ws, at) then Retimed(ws, LowerIndex(ws, at), to) else ws
    case AdjustTimes(from, delta) => ShiftedFrom(ws, LowerIndex(ws, from), delta)
    case EraseOne(at) => if HasTime(ws, at) then Removed(ws, LowerIndex(ws, at), LowerIndex(ws, at) + 1) else ws
    case Copy => ws
    case Erase(first, last) =>
      var i, j := LowerIndex(ws, first), EndIndex(ws, last);
      if i <= j then Removed(ws, i, j) else ws
  }

  lemma {:induction false} EraseRefines(ws: seq<Waypoint>, table: Table, first: Time, last: Option<Time>)
    requires InOrder(ws) && Agree(ws, table) && Accepted(table, Erase(first, last))
    ensures InOrder(ApplyToList(ws, Erase(first, last)))
    ensures Agree(ApplyToList(ws, Erase(first, last)), ApplyToTable(table, Erase(first, last)))
  {
    var i, j := LowerIndex(ws, first), EndIndex(ws, last);
    assert Get(ws, first) == table(first);
    if last.Some? {
      assert Get(ws, last.value) == table(last.value);
      LowerIndexMonotone(ws, first, last.value);
    }
    RemovedInOrder(ws, i, j);
    forall t ensures Get(Removed(ws, i, j), t) == if InRange(t, first, last) then None else table(t) {
      RemovedGet(ws, i, j, t);
      assert Get(ws, t) == table(t);
      var k := LowerIndex(ws, t);
      if first <= t { LowerIndexMonotone(ws, first, t); } else { LowerIndexMonotone(ws, t, first); }
      if last.Some? {
        if last.value <= t { LowerIndexMonotone(ws, last.value, t); } else { LowerIndexMonotone(ws, t, last.value); }
      }
    }
  }

  lemma {:induction false} EraseOneRefines(ws: seq<Waypoint>, table: Table, at: Time)
    requires InOrder(ws) && Agree(ws, table) && table(at).Some?
    ensures HasTime(ws, at) && InOrder(ApplyToList(ws, EraseOne(at)))
    ensures Agree(ApplyToList(ws, EraseOne(at)), ApplyToTable(table, EraseOne(at)))
  {
    var i := LowerIndex(ws, at);
    assert Get(ws, at) == table(at);
    RemovedInOrder(ws, i, i + 1);
    forall t ensures Get(Removed(ws, i, i + 1), t) == if t == at then None else table(t) {
      RemovedGet(ws, i, i + 1, t);
      assert Get(ws, t) == table(t);
    }
  }

  lemma {:induction false} LowerIndexMonotone(ws: seq<Waypoint>, t: Time, u: Time)
    requires InOrder(ws) && t <= u
    ensures LowerIndex(ws, t) <= LowerIndex(ws, u)
    ensures t < u && HasTime(ws, t) ==> LowerIndex(ws, t) < LowerIndex(ws, u)
  {
  }

  lemma {:induction false} AdjustRefines(ws: seq<Waypoint>, table: Table, from: Time, delta: int)
    requires InOrder(ws) && Agree(ws, table) && Accepted(table, AdjustTimes(from, delta))
    ensures InOrder(ApplyToList(ws, AdjustTimes(from, delta)))
    ensures Agree(ApplyToList(ws, AdjustTimes(from, delta)), ApplyToTable(table, AdjustTimes(from, delta)))
  {
    AdjustAllowed(ws, table, from, delta);
    ShiftedFromInOrder(ws, LowerIndex(ws, from), delta);
    var now := ApplyToList(ws, AdjustTimes(from, delta));
    forall t ensures Get(now, t) == Adjusted(table, from, delta, t) {
      assert Get(ws, t) == table(t);
      assert Get(ws, t - delta) == table(t - delta);
      ShiftedFromGet(ws, LowerIndex(ws, from), delta, t);
    }
  }

  lemma {:induction false} AdjustAllowed(ws: seq<Waypoint>, table: Table, from: Time, delta: int)
    requires InOrder(ws) && Agree(ws, table) && Accepted(table, AdjustTimes(from, delta))
    ensures HasTime(ws, from) && ShiftAllowed(ws, LowerIndex(ws, from), delta)
  {
    var i := LowerIndex(ws, from);
    assert Get(ws, from) == table(from);
    if i > 0 {
      GetAt(ws, i - 1);
      assert Get(ws, ws[i - 1].time) == table(ws[i - 1].time);
    }
  }

  /** One accepted edit of the list is the same edit of the table. */
  lemma {:induction false} EditRefines(ws: seq<Waypoint>, table: Table, e: Edit)
    requires InOrder(ws) && Agree(ws, table) && Accepted(table, e)
    ensures InOrder(ApplyToList(ws, e)) && Agree(ApplyToList(ws, e), ApplyToTable(table, e))
  {
    match e {
      case Insert(w) =>
        InsertedInOrder(ws, w);
        forall t
          ensures Get(Inserted(ws, w), t) == if t == w.time && table(t).None? then Some(w.State()) else table(t)
        {
          InsertedGet(ws, w, t);
          assert Get(ws, t) == table(t);
        }
      case ChangeTime(at, to) =>
        var i := LowerIndex(ws, at);
        assert Get(ws, at) == table(at) && Get(ws, to) == table(to);
        RetimedInOrder(ws, i, to);
        forall t
          ensures Get(Retimed(ws, i, to), t) == if t == to then table(at) else if t == at then None else table(t)
        {
          RetimedGet(ws, i, to, t);
          assert Get(ws, t) == table(t);
        }
      case AdjustTimes(from, delta) => AdjustRefines(ws, table, from, delta);
      case EraseOne(at) => EraseOneRefines(ws, table, at);
      case Copy =>
      case Erase(first, last) => EraseRefines(ws, table, first, last);
    }
  }

  ghost predicate AcceptedRun(table: Table, edits: seq<Edit>)
    decreases |edits|
  {
    edits == [] || (Accepted(table, edits[0]) && AcceptedRun(ApplyToTable(table, edits[0]), edits[1..]))
  }

  ghost function RunTable(table: Table, edits: seq<Edit>): Table
    decreases |edits|
  {
    if edits == [] then table else RunTable(ApplyToTable(table, edits[0]), edits[1..])
  }

  ghost function RunList(ws: seq<Waypoint>, edits: seq<Edit>): seq<Waypoint>
    decreases |edits|
  {
    if edits == [] then ws else RunList(ApplyToList(ws, edits[0]), edits[1..])
  }

  /** Any run of accepted edits keeps the list in strict time order and equal to the plain table. */
  lemma {:induction false} RunRefines(ws: seq<Waypoint>, table: Table, edits: seq<Edit>)
    requires InOrder(ws) && Agree(ws, table) && AcceptedRun(table, edits)
    ensures InOrder(RunList(ws, edits)) && Agree(RunList(ws, edits), RunTable(table, edits))
    decreases |edits|
  {
    if edits != [] {
      EditRefines(ws, table, edits[0]);
      RunRefines(ApplyToList(ws, edits[0]), ApplyToTable(table, edits[0]), edits[1..]);
    }
  }
}
