/**
 The trajectory container: waypoint nodes in a list, and an index whose entries
 refer to those nodes.  A list iterator is its position in the list.
 */
module Trajectories {
  import opened OrderMaps
  import opened Waypoints

  class WaypointNode {
    var time: Time
    var position: Vec3
    var velocity: Vec3

    constructor (w: Waypoint)
      ensures Value() == w
    {
      time, position, velocity := w.time, w.position, w.velocity;
    }

    function Value(): Waypoint
      reads this
    {
      Waypoint(time, position, velocity)
    }
  }

  ghost function Values(nodes: seq<WaypointNode>): (r: seq<Waypoint>)
    reads nodes
    ensures |r| == |nodes|
    ensures forall i :: 0 <= i < |nodes| ==> r[i] == nodes[i].Value()
  {
    seq(|nodes|, i requires 0 <= i < |nodes| reads nodes => nodes[i].Value())
  }

  /** Entry i of the index refers to list element i and carries its time. */
  ghost predicate Consistent(storage: seq<Element<WaypointNode>>, nodes: seq<WaypointNode>)
    reads nodes
  {
    && |storage| == |nodes|
    && (forall i :: 0 <= i < |nodes| ==> storage[i].value == nodes[i])
    && (forall i :: 0 <= i < |nodes| ==> storage[i].key == nodes[i].time)
  }

  class Trajectory {
    const ordering: OrderMap<WaypointNode>
    var segments: seq<WaypointNode>

    ghost predicate Valid()
      reads this, ordering, segments
    {
      Consistent(ordering.storage, segments) && Ascending(ordering.storage)
    }

    /** The waypoints as a list of values. */
    ghost function View(): seq<Waypoint>
      reads this, segments
    {
      Values(segments)
    }

    constructor ()
      ensures Valid() && View() == [] && segments == [] && fresh(ordering)
    {
      ordering := new OrderMap<WaypointNode>();
      segments := [];
    }

    /** Copies the nodes and redirects every index entry to its copy. */
    constructor Copy(other: Trajectory)
      requires other.Valid()
      ensures Valid() && View() == other.View()
      ensures fresh(ordering) && forall n :: n in segments ==> fresh(n)
    {
      ordering := new OrderMap<WaypointNode>();
      segments := [];
      new;
      ordering.storage := other.ordering.storage;
      for i := 0 to |other.segments|
        invariant fresh(ordering) && ordering.storage == other.ordering.storage
        invariant |segments| == i
        invariant forall n :: n in segments ==> fresh(n)
        invariant forall k :: 0 <= k < i ==> segments[k].Value() == other.segments[k].Value()
      {
        var node := new WaypointNode(other.segments[i].Value());
        segments := segments + [node];
      }
      for i := 0 to |segments|
        invariant fresh(ordering) && |ordering.storage| == |segments| == |other.segments|
        invariant forall n :: n in segments ==> fresh(n)
        invariant forall k :: 0 <= k < |segments| ==> segments[k].Value() == other.segments[k].Value()
        invariant forall k :: 0 <= k < |segments| ==> ordering.storage[k].key == other.ordering.storage[k].key
        invariant forall k :: 0 <= k < i ==> ordering.storage[k].value == segments[k]
      {
        ordering.storage := ordering.storage[i := Element(ordering.storage[i].key, segments[i])];
      }
      assert View() == other.View();
    }

    method Insert(w: Waypoint) returns (at: nat, inserted: bool)
      requires Valid()
      modifies this, ordering
      ensures Valid()
      ensures inserted <==> !HasTime(old(View()), w.time)
      ensures View() == Inserted(old(View()), w)
      ensures at < |segments| && segments[at].time == w.time
      ensures inserted ==> fresh(segments[at]) && segments == old(segments)[..at] + [segments[at]] + old(segments)[at..]
      ensures !inserted ==> segments == old(segments)
    {
      var hint := LowerIndexOf(w.time);
      if hint < |ordering.storage| && ordering.storage[hint].key == w.time {
        return hint, false;
      }
      ghost var views, entries, nodes := View(), ordering.storage, segments;
      var node := Link(hint, w);
      InsertedView(entries, nodes, views, hint, node);
      at, inserted := hint, true;
    }

    /** Puts a new node into the list and the index, both in front of `hint`. */
    method Link(hint: nat, w: Waypoint) returns (node: WaypointNode)
      requires |segments| == |ordering.storage| && Ascending(ordering.storage)
      requires IsLowerBound(ordering.storage, w.time, hint)
      requires hint < |ordering.storage| ==> ordering.storage[hint].key != w.time
      modifies this, ordering
      ensures fresh(node) && node.Value() == w
      ensures segments == old(segments)[..hint] + [node] + old(segments)[hint..]
      ensures ordering.storage
           == old(ordering.storage)[..hint] + [Element(w.time, node)] + old(ordering.storage)[hint..]
    {
      node := new WaypointNode(w);
      segments := segments[..hint] + [node] + segments[hint..];
      InsertUniqueAt(ordering.storage, w.time, node, hint);
      var placed := ordering.EmplaceHint(hint, w.time, node);
    }

    lemma {:induction false} InsertedView(entries: seq<Element<WaypointNode>>, nodes: seq<WaypointNode>,
                                          views: seq<Waypoint>, hint: nat, node: WaypointNode)
      requires Consistent(entries, nodes) && Ascending(entries) && Values(nodes) == views
      requires hint == LowerIndex(views, node.time) && !HasTime(views, node.time)
      requires segments == nodes[..hint] + [node] + nodes[hint..]
      requires ordering.storage == entries[..hint] + [Element(node.time, node)] + entries[hint..]
      ensures Valid() && View() == Inserted(views, node.Value())
    {
      AscendingMeans(entries, nodes);
      InsertedInOrder(views, node.Value());
      ConsistentInsert(entries, nodes, hint, node);
      ValuesInsert(nodes, hint, node);
      ViewAscending();
    }

    /** First waypoint at or after `time`, but the end when `time` precedes the trajectory. */
    method Find(time: Time) returns (at: nat)
      requires Valid()
      ensures at == if segments != [] && time < View()[0].time then |segments| else LowerIndex(View(), time)
    {
      at := LowerIndexOf(time);
      if at < |segments| && time < segments[0].time {
        at := |segments|;
      }
    }

    /**
     Moves a waypoint to a new time.  When another waypoint has that time the call throws
     after it has overwritten the index key, and the container is left inconsistent.  Moving the last
     waypoint later trips a debug assertion; a build without assertions carries the move out.
     */
    method ChangeTime(at: nat, newTime: Time) returns (ok: bool, tripped: bool)
      requires Valid() && at < |segments|
      modifies this, ordering, segments[at]
      ensures ok <==> newTime == old(View())[at].time || !HasTime(old(View()), newTime)
      ensures tripped <==> at == |old(segments)| - 1 && old(View())[at].time < newTime
      ensures ok ==> Valid() && View() == Retimed(old(View()), at, newTime)
      ensures ok ==> multiset(segments) == multiset(old(segments))
      ensures !ok ==> segments == old(segments) && View() == old(View())
      ensures !ok ==> !Consistent(ordering.storage, segments)
    {
      var node := segments[at];
      var currentTime := node.time;
      assert View()[at] == node.Value();
      if currentTime == newTime {
        ViewInOrder();
        RetimedSame(View(), at);
        ok, tripped := true, false;
      } else {
        ok, tripped := MoveAway(node, at, newTime);
      }
    }

    method MoveAway(node: WaypointNode, at: nat, newTime: Time) returns (ok: bool, tripped: bool)
      requires Valid() && at < |segments| && node == segments[at] && newTime != View()[at].time
      modifies this, ordering, node
      ensures ok <==> !HasTime(old(View()), newTime)
      ensures tripped <==> at == |old(segments)| - 1 && old(View())[at].time < newTime
      ensures ok ==> Valid() && View() == Retimed(old(View()), at, newTime)
      ensures ok ==> multiset(segments) == multiset(old(segments))
      ensures !ok ==> segments == old(segments) && View() == old(View())
      ensures !ok ==> !Consistent(ordering.storage, segments)
    {
      var current := EntryOf(at);
      var hint := LowerIndexOf(newTime);
      LastMovesLater(View(), at, hint, newTime);
      ok, tripped := MoveTo(node, at, current, hint, newTime);
    }

    /** The target of the rotation is right after the mover exactly when the last waypoint moves later. */
    lemma {:induction false} LastMovesLater(ws: seq<Waypoint>, at: nat, hint: nat, t: Time)
      requires Valid() && ws == View() && at < |ws| && hint == LowerIndex(ws, t) && t != ws[at].time
      ensures hint == |ws| == at + 1 <==> at == |ws| - 1 && ws[at].time < t
    {
      ViewInOrder();
    }

    method MoveTo(node: WaypointNode, at: nat, current: nat, hint: nat, newTime: Time)
      returns (ok: bool, tripped: bool)
      requires Valid() && at == current < |segments| && node == segments[at]
      requires hint == LowerIndex(View(), newTime) && newTime != View()[at].time
      modifies this, ordering, node
      ensures ok <==> !HasTime(old(View()), newTime)
      ensures tripped <==> hint == |old(segments)| == at + 1
      ensures ok ==> Valid() && View() == Retimed(old(View()), at, newTime)
      ensures ok ==> multiset(segments) == multiset(old(segments))
      ensures !ok ==> segments == old(segments) && View() == old(View())
      ensures !ok ==> !Consistent(ordering.storage, segments)
    {
      ghost var views, entries, nodes := View(), ordering.storage, segments;
      ok, tripped := Relink(at, current, hint, newTime);
      if ok {
        SetTime(node, entries, nodes, views, at, hint, newTime);
      } else {
        assert ordering.storage[at].key != segments[at].time;
      }
    }

    /** Writes the new time into the moved node. */
    method SetTime(node: WaypointNode, ghost entries: seq<Element<WaypointNode>>, ghost nodes: seq<WaypointNode>,
                   ghost views: seq<Waypoint>, ghost at: nat, ghost hint: nat, newTime: Time)
      requires at < |nodes| == |views| && node == nodes[at] && Consistent(entries, nodes) && Values(nodes) == views
      requires Ascending(entries) && hint == LowerIndex(views, newTime) && !HasTime(views, newTime)
      requires ordering.storage == Moved(entries[at := Element(newTime, nodes[at])], at, hint)
      requires segments == Moved(nodes, at, hint)
      modifies node
      ensures Valid() && View() == Retimed(views, at, newTime)
      ensures multiset(segments) == multiset(nodes)
    {
      AscendingMeans(entries, nodes);
      node.time := newTime;
      assert forall k :: 0 <= k < |nodes| && k != at ==> nodes[k].Value() == views[k];
      RetimedView(entries[at := Element(newTime, nodes[at])], nodes, views, at, hint, newTime);
    }

    /** Overwrites the key, then moves the entry and the node in front of `hint` unless its time is taken. */
    method Relink(at: nat, current: nat, hint: nat, newTime: Time) returns (ok: bool, tripped: bool)
      requires at == current < |segments| == |ordering.storage| && hint <= |segments|
      requires hint < |segments| ==> ordering.storage[hint].value == segments[hint]
      modifies this, ordering
      ensures ok <==> hint == at || hint == |old(segments)| || old(segments)[hint].time != newTime
      ensures tripped <==> hint == |old(segments)| == at + 1
      ensures segments == if ok then Moved(old(segments), at, hint) else old(segments)
      ensures ordering.storage ==
        var keys := old(ordering.storage)[at := Element(newTime, old(ordering.storage)[at].value)];
        if ok then Moved(keys, at, hint) else keys
    {
      ordering.storage := ordering.storage[current := Element(newTime, ordering.storage[current].value)];
      MovedNowhere(segments, at);
      MovedNowhere(ordering.storage, at);
      tripped := false;
      if current == hint {
      } else if hint == |ordering.storage| {
        segments := Moved(segments, at, hint);
        tripped := ordering.Rotate(current, hint);
      } else {
        var destination := ordering.storage[hint].value;
        if destination.time == newTime {
          return false, false;
        }
        if current + 1 != hint {
          segments := Moved(segments, at, hint);
          tripped := ordering.Rotate(current, hint);
        }
      }
      ok := true;
    }

    /** The index and the list, moved alike, hold the retimed waypoints. */
    lemma {:induction false} RetimedView(keys: seq<Element<WaypointNode>>, nodes: seq<WaypointNode>,
                                         views: seq<Waypoint>, at: nat, hint: nat, t: Time)
      requires at < |nodes| == |views| && hint == LowerIndex(views, t) && InOrder(views) && !HasTime(views, t)
      requires Consistent(keys, nodes) && Values(nodes) == views[at := views[at].(time := t)]
      requires ordering.storage == Moved(keys, at, hint) && segments == Moved(nodes, at, hint)
      ensures Valid() && View() == Retimed(views, at, t)
      ensures multiset(segments) == multiset(nodes)
    {
      MovedElements(nodes, at, hint);
      MovedValues(nodes, segments, Values(nodes), at, hint);
      RetimedIsMoved(views, at, hint, t);
      RetimedInOrder(views, at, t);
      MovedConsistent(keys, ordering.storage, nodes, segments, at, hint);
      ViewAscending();
    }

    /** Shifts a waypoint and all later ones; refuses to move it onto its predecessor or before. */
    method AdjustTimes(at: nat, delta: int) returns (ok: bool)
      requires Valid() && at < |segments|
      modifies ordering, segments
      ensures Valid() && segments == old(segments)
      ensures ok <==> ShiftAllowed(old(View()), at, delta)
      ensures View() == if ok then ShiftedFrom(old(View()), at, delta) else old(View())
    {
      if delta < 0 && at != 0 && segments[at].time + delta <= segments[at - 1].time {
        return false;
      }
      ghost var views := View();
      AscendingMeans(ordering.storage, segments);
      var orderBegin := EntryOf(at);
      ghost var entries := ordering.storage;
      ShiftNodes(at, delta);
      ShiftKeys(orderBegin, delta);
      ShiftedView(entries, views, at, delta);
      ok := true;
    }

    lemma {:induction false} ShiftedView(entries: seq<Element<WaypointNode>>, views: seq<Waypoint>, at: nat, delta: int)
      requires InOrder(views) && at < |views| == |segments| == |entries| == |ordering.storage|
      requires ShiftAllowed(views, at, delta)
      requires forall k :: 0 <= k < |entries| ==> entries[k].key == views[k].time
      requires forall k :: 0 <= k < |entries| ==> ordering.storage[k].value == segments[k]
      requires forall k :: 0 <= k < |entries| ==>
        ordering.storage[k].key == entries[k].key + if k < at then 0 else delta
      requires forall k :: 0 <= k < at ==> segments[k].Value() == views[k]
      requires forall k :: at <= k < |segments| ==> segments[k].Value() == Later(views[k], delta)
      ensures Valid() && View() == ShiftedFrom(views, at, delta)
    {
      ShiftedFromIs(views, View(), at, delta);
      ShiftedFromInOrder(views, at, delta);
      ViewAscending();
    }

    /** Adjusts the times held by the list. */
    method ShiftNodes(at: nat, delta: int)
      requires at <= |segments|
      requires forall i, j :: 0 <= i < j < |segments| ==> segments[i] != segments[j]
      modifies segments
      ensures forall k :: 0 <= k < at ==> segments[k].Value() == old(segments[k].Value())
      ensures forall k :: at <= k < |segments| ==> segments[k].Value() == Later(old(segments[k].Value()), delta)
    {
      for i := at to |segments|
        modifies segments
        invariant forall k :: 0 <= k < at ==> segments[k].Value() == old(segments[k].Value())
        invariant forall k :: at <= k < i ==> segments[k].Value() == Later(old(segments[k].Value()), delta)
        invariant forall k :: i <= k < |segments| ==> segments[k].Value() == old(segments[k].Value())
      {
        segments[i].time := segments[i].time + delta;
      }
    }

    /** Adjusts the keys held by the index. */
    method ShiftKeys(at: nat, delta: int)
      requires at <= |ordering.storage|
      modifies ordering
      ensures |ordering.storage| == |old(ordering.storage)|
      ensures forall k :: 0 <= k < |ordering.storage| ==> ordering.storage[k].value == old(ordering.storage)[k].value
      ensures forall k :: 0 <= k < |ordering.storage| ==>
        ordering.storage[k].key == old(ordering.storage)[k].key + if k < at then 0 else delta
    {
      ghost var entries := ordering.storage;
      for i := at to |ordering.storage|
        modifies ordering
        invariant |ordering.storage| == |entries|
        invariant forall k :: 0 <= k < |entries| ==> ordering.storage[k].value == entries[k].value
        invariant forall k :: 0 <= k < |entries| ==>
          ordering.storage[k].key == entries[k].key + if at <= k < i then delta else 0
      {
        var e := ordering.storage[i];
        ordering.storage := ordering.storage[i := Element(e.key + delta, e.value)];
      }
    }

    /** Removes one waypoint and returns the position of its successor. */
    method Erase(at: nat) returns (next: nat)
      requires Valid() && at < |segments|
      modifies this, ordering
      ensures Valid() && next == at
      ensures View() == Removed(old(View()), at, at + 1)
      ensures segments == old(segments)[..at] + old(segments)[at + 1..]
    {
      ghost var entries, nodes := ordering.storage, segments;
      var erased := ordering.EraseKey(segments[at].time);
      assert erased == Found(at);
      segments := segments[..at] + segments[at + 1..];
      RemovedView(entries, nodes, at, at + 1);
      next := at;
    }

    /** Removes a range of waypoints; the first must exist, the last may be the end. */
    method EraseRange(first: nat, last: nat) returns (next: nat)
      requires Valid() && first < |segments| && first <= last <= |segments|
      modifies this, ordering
      ensures Valid() && next == first
      ensures View() == Removed(old(View()), first, last)
      ensures segments == old(segments)[..first] + old(segments)[last..]
    {
      var orderStart := EntryOf(first);
      var orderEnd := |ordering.storage|;
      if last < |segments| {
        orderEnd := EntryOf(last);
      }
      CutOut(first, last, orderStart, orderEnd);
      next := first;
    }

    method CutOut(first: nat, last: nat, orderStart: nat, orderEnd: nat)
      requires Valid() && first == orderStart <= last == orderEnd <= |segments|
      modifies this, ordering
      ensures Valid() && View() == Removed(old(View()), first, last)
      ensures segments == old(segments)[..first] + old(segments)[last..]
    {
      ghost var entries, nodes := ordering.storage, segments;
      ordering.storage := ordering.storage[..orderStart] + ordering.storage[orderEnd..];
      segments := segments[..first] + segments[last..];
      RemovedView(entries, nodes, first, last);
    }

    lemma {:induction false} RemovedView(entries: seq<Element<WaypointNode>>, nodes: seq<WaypointNode>, i: nat, j: nat)
      requires Consistent(entries, nodes) && Ascending(entries) && i <= j <= |nodes|
      requires ordering.storage == entries[..i] + entries[j..] && segments == nodes[..i] + nodes[j..]
      ensures Valid() && View() == Removed(Values(nodes), i, j)
    {
      AscendingMeans(entries, nodes);
      RemovedInOrder(Values(nodes), i, j);
      RemovedConsistent(entries, nodes, i, j);
      ViewAscending();
    }

    // -------------------------------------------------------------- lookups in the index

    /** The index lower bound of a time is the number of earlier waypoints. */
    method LowerIndexOf(t: Time) returns (r: nat)
      requires Valid()
      ensures r == LowerIndex(View(), t) && IsLowerBound(ordering.storage, t, r)
    {
      r := ordering.LowerBound(t);
      ghost var views := View();
      assert forall i :: 0 <= i < |views| ==> views[i].time == ordering.storage[i].key;
      LowerIndexIs(views, t, r);
    }

    /** Looking a waypoint's time up in the index leads to the entry at its list position. */
    method EntryOf(at: nat) returns (i: nat)
      requires Valid() && at < |segments|
      ensures i == at
    {
      var found := ordering.Find(segments[at].time);
      assert ordering.storage[at].key == segments[at].time;
      i := found.index;
    }

    // -------------------------------------------------------------- views of a valid container

    lemma ViewInOrder()
      requires Valid()
      ensures InOrder(View())
    {
      AscendingMeans(ordering.storage, segments);
    }

    lemma ViewAscending()
      requires Consistent(ordering.storage, segments) && InOrder(View())
      ensures Valid()
    {
      forall i, j | 0 <= i < j < |segments| ensures ordering.storage[i].key < ordering.storage[j].key {
        assert View()[i].time < View()[j].time;
      }
    }
  }

  lemma {:induction false} AscendingMeans(entries: seq<Element<WaypointNode>>, nodes: seq<WaypointNode>)
    requires Consistent(entries, nodes) && Ascending(entries)
    ensures InOrder(Values(nodes))
    ensures forall i, j :: 0 <= i < j < |nodes| ==> nodes[i] != nodes[j]
  {
    forall i, j | 0 <= i < j < |nodes| ensures Values(nodes)[i].time < Values(nodes)[j].time && nodes[i] != nodes[j] {
      assert entries[i].key < entries[j].key;
    }
  }

  // ---------------------------------------------------------------- list and index cut alike

  lemma {:induction false} ConsistentInsert(entries: seq<Element<WaypointNode>>, nodes: seq<WaypointNode>, h: nat,
                                            node: WaypointNode)
    requires Consistent(entries, nodes) && h <= |nodes|
    ensures Consistent(entries[..h] + [Element(node.time, node)] + entries[h..], nodes[..h] + [node] + nodes[h..])
  {
  }

  lemma {:induction false} ValuesInsert(nodes: seq<WaypointNode>, h: nat, node: WaypointNode)
    requires h <= |nodes|
    ensures Values(nodes[..h] + [node] + nodes[h..]) == Values(nodes)[..h] + [node.Value()] + Values(nodes)[h..]
  {
  }

  lemma {:induction false} RemovedConsistent(entries: seq<Element<WaypointNode>>, nodes: seq<WaypointNode>, i: nat,
                                             j: nat)
    requires Consistent(entries, nodes) && i <= j <= |nodes|
    ensures Consistent(entries[..i] + entries[j..], nodes[..i] + nodes[j..])
    ensures Values(nodes[..i] + nodes[j..]) == Removed(Values(nodes), i, j)
  {
  }

  ghost function Later(w: Waypoint, delta: int): Waypoint {
    w.(time := w.time + delta)
  }

  lemma {:induction false} ShiftedFromIs(ws: seq<Waypoint>, now: seq<Waypoint>, i: nat, delta: int)
    requires i <= |ws| == |now|
    requires forall k :: 0 <= k < i ==> now[k] == ws[k]
    requires forall k :: i <= k < |ws| ==> now[k] == Later(ws[k], delta)
    ensures now == ShiftedFrom(ws, i, delta)
  {
  }

  // ---------------------------------------------------------------- moving one element

  lemma {:induction false} MovedNowhere<T>(s: seq<T>, i: nat)
    requires i < |s|
    ensures Moved(s, i, i) == s && Moved(s, i, i + 1) == s
  {
  }

  lemma {:induction false} MovedElements<T>(s: seq<T>, i: nat, h: nat)
    requires i < |s| && h <= |s|
    ensures |Moved(s, i, h)| == |s| && multiset(Moved(s, i, h)) == multiset(s)
  {
    var rest := s[..i] + s[i + 1..];
    assert s[..i] + [s[i]] + s[i + 1..] == s;
    ElementsWith(s[..i], s[i + 1..], s[i]);
    var to := if i < h then h - 1 else h;
    assert rest[..to] + rest[to..] == rest;
    ElementsWith(rest[..to], rest[to..], s[i]);
  }

  lemma {:induction false} ElementsWith<T>(before: seq<T>, after: seq<T>, x: T)
    ensures multiset(before + [x] + after) == multiset(before + after) + multiset{x}
  {
  }

  /** Where the element now at `k` came from. */
  ghost function Origin(i: nat, h: nat, k: int): int {
    var to := if i < h then h - 1 else h;
    var j := if k < to then k else k - 1;
    if k == to then i else if j < i then j else j + 1
  }

  lemma {:induction false} MovedAt<T>(s: seq<T>, i: nat, h: nat, k: nat)
    requires i < |s| && h <= |s| && k < |s|
    ensures |Moved(s, i, h)| == |s| && 0 <= Origin(i, h, k) < |s|
    ensures Moved(s, i, h)[k] == s[Origin(i, h, k)]
  {
  }

  lemma {:induction false} LowerIndexAfterRemoval(ws: seq<Waypoint>, i: nat, h: nat, t: Time, rest: seq<Waypoint>,
                                                  to: nat)
    requires InOrder(ws) && i < |ws| && h == LowerIndex(ws, t) && !HasTime(ws, t)
    requires rest == Removed(ws, i, i + 1) && to == if i < h then h - 1 else h
    ensures LowerIndex(rest, t) == to && !HasTime(rest, t)
  {
    RemovedLowerIndex(ws, i, i + 1, t, h, to);
    RemovedGet(ws, i, i + 1, t);
  }

  /** Removing a waypoint and inserting it at a free time moves it in front of the later ones. */
  lemma {:induction false} RetimedIsMoved(ws: seq<Waypoint>, i: nat, h: nat, t: Time)
    requires InOrder(ws) && i < |ws| && h == LowerIndex(ws, t) && !HasTime(ws, t)
    ensures Retimed(ws, i, t) == Moved(ws[i := ws[i].(time := t)], i, h)
  {
    LowerIndexAfterRemoval(ws, i, h, t, Removed(ws, i, i + 1), if i < h then h - 1 else h);
    MovedUpdated(ws, i, h, ws[i].(time := t));
  }

  lemma {:induction false} MovedUpdated<T>(s: seq<T>, i: nat, h: nat, x: T)
    requires i < |s| && h <= |s|
    ensures var rest := s[..i] + s[i + 1..];
            var to := if i < h then h - 1 else h;
            Moved(s[i := x], i, h) == rest[..to] + [x] + rest[to..]
  {
    assert s[i := x][..i] + s[i := x][i + 1..] == s[..i] + s[i + 1..];
  }

  lemma {:induction false} RetimedSame(ws: seq<Waypoint>, i: nat)
    requires InOrder(ws) && i < |ws|
    ensures Retimed(ws, i, ws[i].time) == ws
  {
    var rest := Removed(ws, i, i + 1);
    assert LowerIndex(rest, ws[i].time) == i && !HasTime(rest, ws[i].time) by {
      GetAt(ws, i);
      RemovedLowerIndex(ws, i, i + 1, ws[i].time, i, i);
      RemovedGone(ws, i, i + 1, ws[i].time, i);
    }
    assert ws[i].(time := ws[i].time) == ws[i];
  }

  lemma {:induction false} MovedValues(before: seq<WaypointNode>, now: seq<WaypointNode>, changed: seq<Waypoint>,
                                       i: nat, h: nat)
    requires i < |before| && h <= |before| && now == Moved(before, i, h)
    requires |changed| == |before| && forall k :: 0 <= k < |before| ==> before[k].Value() == changed[k]
    ensures Values(now) == Moved(changed, i, h)
  {
    forall k | 0 <= k < |before| ensures |now| == |before| && now[k].Value() == Moved(changed, i, h)[k] {
      MovedAt(before, i, h, k);
      MovedAt(changed, i, h, k);
    }
    MovedElements(changed, i, h);
  }

  lemma {:induction false} MovedConsistent(keys: seq<Element<WaypointNode>>, storage: seq<Element<WaypointNode>>,
                                           before: seq<WaypointNode>, now: seq<WaypointNode>, i: nat, h: nat)
    requires i < |before| && h <= |before| && Consistent(keys, before)
    requires storage == Moved(keys, i, h) && now == Moved(before, i, h)
    ensures Consistent(storage, now)
  {
    MovedElements(before, i, h);
    MovedElements(keys, i, h);
    forall k | 0 <= k < |now| ensures storage[k].value == now[k] && storage[k].key == now[k].time {
      MovedAt(before, i, h, k);
      MovedAt(keys, i, h, k);
    }
  }
}
