/** Any run of edits on the container itself is the same run of edits on the plain table. */
module TrajectoryRuns {
  import opened OrderMaps
  import opened Waypoints
  import opened Trajectories

  method PerformInsert(t: Trajectory, w: Waypoint)
    requires t.Valid()
    modifies t, t.ordering
    ensures t.Valid() && t.View() == Inserted(old(t.View()), w)
    ensures forall n :: n in t.segments ==> n in old(t.segments) || fresh(n)
  {
    var at, inserted := t.Insert(w);
  }

  method PerformChangeTime(t: Trajectory, at: Time, to: Time)
    requires t.Valid() && HasTime(t.View(), at) && (to == at || !HasTime(t.View(), to))
    modifies t, t.ordering, t.segments
    ensures t.Valid() && t.View() == Retimed(old(t.View()), LowerIndex(old(t.View()), at), to)
    ensures forall n :: n in t.segments ==> n in old(t.segments) || fresh(n)
  {
    var i := t.LowerIndexOf(at);
    ghost var before := t.segments;
    var ok, tripped := t.ChangeTime(i, to);
    SameElements(t.segments, before);
  }

  lemma {:induction false} SameElements<T>(a: seq<T>, b: seq<T>)
    requires multiset(a) == multiset(b)
    ensures forall x :: x in a ==> x in b
  {
    forall x | x in a ensures x in b {
      assert x in multiset(a);
    }
  }

  method PerformAdjustTimes(t: Trajectory, from: Time, delta: int)
    requires t.Valid() && HasTime(t.View(), from) && ShiftAllowed(t.View(), LowerIndex(t.View(), from), delta)
    modifies t.ordering, t.segments
    ensures t.Valid() && t.View() == ShiftedFrom(old(t.View()), LowerIndex(old(t.View()), from), delta)
    ensures t.segments == old(t.segments)
  {
    var i := t.LowerIndexOf(from);
    var ok := t.AdjustTimes(i, delta);
  }

  /** The waypoints from one time up to another, or to the end. */
  method PerformErase(t: Trajectory, first: Time, last: Option<Time>)
    requires t.Valid() && HasTime(t.View(), first)
    requires LowerIndex(t.View(), first) <= EndIndex(t.View(), last)
    modifies t, t.ordering
    ensures t.Valid()
    ensures t.View() == Removed(old(t.View()), LowerIndex(old(t.View()), first), EndIndex(old(t.View()), last))
    ensures forall n :: n in t.segments ==> n in old(t.segments) || fresh(n)
  {
    var i := t.LowerIndexOf(first);
    var j := |t.segments|;
    if last.Some? {
      j := t.LowerIndexOf(last.value);
    }
    var next := t.EraseRange(i, j);
  }

  method PerformEraseOne(t: Trajectory, at: Time)
    requires t.Valid() && HasTime(t.View(), at)
    modifies t, t.ordering
    ensures t.Valid()
    ensures t.View() == Removed(old(t.View()), LowerIndex(old(t.View()), at), LowerIndex(old(t.View()), at) + 1)
    ensures forall n :: n in t.segments ==> n in old(t.segments) || fresh(n)
  {
    var i := t.LowerIndexOf(at);
    var next := t.Erase(i);
  }

  method PerformCopy(t: Trajectory) returns (u: Trajectory)
    requires t.Valid()
    ensures u.Valid() && u.View() == t.View()
    ensures fresh(u) && fresh(u.ordering) && forall n :: n in u.segments ==> fresh(n)
  {
    u := new Trajectory.Copy(t);
  }

  /** One edit that the container accepts; a copy leaves it alone and goes on with the new container. */
  method Perform(t: Trajectory, e: Edit, ghost table: Table) returns (u: Trajectory)
    requires t.Valid() && Agree(t.View(), table) && Accepted(table, e)
    modifies t, t.ordering, t.segments
    ensures u.Valid() && u.View() == ApplyToList(old(t.View()), e)
    ensures forall n :: n in u.segments ==> n in old(t.segments) || fresh(n)
    ensures if e.Copy? then fresh(u) && fresh(u.ordering) && t.Valid() && t.View() == old(t.View()) else u == t
  {
    if e.Copy? {
      u := PerformCopy(t);
    } else {
      u := t;
      PerformInPlace(t, e, table);
    }
  }

  method PerformInPlace(t: Trajectory, e: Edit, ghost table: Table)
    requires t.Valid() && Agree(t.View(), table) && Accepted(table, e) && !e.Copy?
    modifies t, t.ordering, t.segments
    ensures t.Valid() && t.View() == ApplyToList(old(t.View()), e)
    ensures forall n :: n in t.segments ==> n in old(t.segments) || fresh(n)
  {
    t.ViewInOrder();
    EditFits(t.View(), table, e);
    match e {
      case Insert(w) => PerformInsert(t, w);
      case ChangeTime(at, to) => PerformChangeTime(t, at, to);
      case AdjustTimes(from, delta) => PerformAdjustTimes(t, from, delta);
      case EraseOne(at) => PerformEraseOne(t, at);
      case Erase(first, last) => PerformErase(t, first, last);
    }
  }

  /** Where the table accepts an edit, the list has the positions it needs. */
  lemma {:induction false} EditFits(ws: seq<Waypoint>, table: Table, e: Edit)
    requires InOrder(ws) && Agree(ws, table) && Accepted(table, e)
    ensures e.ChangeTime? ==> HasTime(ws, e.at) && (e.to == e.at || !HasTime(ws, e.to))
    ensures e.AdjustTimes? ==> HasTime(ws, e.from) && ShiftAllowed(ws, LowerIndex(ws, e.from), e.delta)
    ensures e.EraseOne? ==> HasTime(ws, e.at)
    ensures e.Erase? ==> HasTime(ws, e.first) && LowerIndex(ws, e.first) <= EndIndex(ws, e.last)
  {
    match e {
      case Insert(_) =>
      case ChangeTime(at, to) =>
        assert Get(ws, at) == table(at) && Get(ws, to) == table(to);
      case AdjustTimes(from, delta) => AdjustAllowed(ws, table, from, delta);
      case EraseOne(at) => assert Get(ws, at) == table(at);
      case Copy =>
      case Erase(first, last) =>
        assert Get(ws, first) == table(first);
        if last.Some? { LowerIndexMonotone(ws, first, last.value); }
    }
  }

  /**
   The container after any run of accepted edits, copies included, holds the list after the same
   edits, and so exactly the table after the same edits.
   */
  method PerformAll(t: Trajectory, edits: seq<Edit>, ghost table: Table, ghost nodes: set<WaypointNode>)
    returns (u: Trajectory)
    requires t.Valid() && Agree(t.View(), table) && AcceptedRun(table, edits)
    requires forall n :: n in t.segments ==> n in nodes
    modifies t, t.ordering, nodes
    ensures u.Valid() && u.View() == RunList(old(t.View()), edits)
    ensures Agree(u.View(), RunTable(table, edits))
    decreases |edits|
  {
    t.ViewInOrder();
    RunRefines(t.View(), table, edits);
    u := t;
    if edits != [] {
      ghost var more;
      u, more := PerformOwned(t, edits[0], table, nodes);
      u := PerformAll(u, edits[1..], ApplyToTable(table, edits[0]), more);
    }
  }

  method PerformOwned(t: Trajectory, e: Edit, ghost table: Table, ghost nodes: set<WaypointNode>)
    returns (u: Trajectory, ghost more: set<WaypointNode>)
    requires t.Valid() && Agree(t.View(), table) && Accepted(table, e)
    requires forall n :: n in t.segments ==> n in nodes
    modifies t, t.ordering, nodes
    ensures u.Valid() && u.View() == ApplyToList(old(t.View()), e) && Agree(u.View(), ApplyToTable(table, e))
    ensures u == t || (fresh(u) && fresh(u.ordering))
    ensures (forall n :: n in u.segments ==> n in more) && forall n :: n in more ==> n in nodes || fresh(n)
  {
    t.ViewInOrder();
    EditRefines(t.View(), table, e);
    u := Perform(t, e, table);
    more := set n | n in u.segments;
  }

  /** Whatever is done to a copy, the original keeps every waypoint: nothing that existed before is modified. */
  method EditCopy(t: Trajectory, edits: seq<Edit>, ghost table: Table) returns (u: Trajectory)
    requires t.Valid() && Agree(t.View(), table) && AcceptedRun(table, edits)
    ensures u.Valid() && Agree(u.View(), RunTable(table, edits))
    ensures t.Valid() && t.View() == old(t.View())
  {
    u := PerformCopy(t);
    u := PerformAll(u, edits, table, set n | n in u.segments);
  }
}
