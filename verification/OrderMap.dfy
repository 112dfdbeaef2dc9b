/**
 The sorted vector that indexes a trajectory's waypoints by time.  Dereferencing
 the past-the-end iterator, which the source does without a check in three
 places, is an explicit outcome here.
 */
module OrderMaps {
  type Time = int

  datatype Element<V> = Element(key: Time, value: V)

  ghost predicate Ascending<V>(s: seq<Element<V>>) {
    forall i, j :: 0 <= i < j < |s| ==> s[i].key < s[j].key
  }

  /** `r` splits `s` into the keys below `k` and the others. */
  ghost predicate IsLowerBound<V>(s: seq<Element<V>>, k: Time, r: int) {
    && 0 <= r <= |s|
    && (forall i :: 0 <= i < r ==> s[i].key < k)
    && (forall i :: r <= i < |s| ==> k <= s[i].key)
  }

  /** Reference insertion: walk to the place of the key; an existing key wins. */
  ghost function InsertUnique<V>(s: seq<Element<V>>, key: Time, value: V): seq<Element<V>> {
    if s == [] || key < s[0].key then [Element(key, value)] + s
    else if key == s[0].key then s
    else [s[0]] + InsertUnique(s[1..], key, value)
  }

  lemma {:induction false} InsertUniqueAt<V>(s: seq<Element<V>>, key: Time, value: V, r: nat)
    requires Ascending(s) && IsLowerBound(s, key, r)
    ensures InsertUnique(s, key, value)
         == if r < |s| && s[r].key == key then s else s[..r] + [Element(key, value)] + s[r..]
    decreases r
  {
    if r > 0 {
      LowerBoundOfTail(s, key, r);
      InsertUniqueAt(s[1..], key, value, r - 1);
      PrependInsertion(s, r, Element(key, value));
    }
  }

  lemma {:induction false} PrependInsertion<T>(s: seq<T>, r: nat, x: T)
    requires 0 < r <= |s|
    ensures [s[0]] + s[1..] == s
    ensures [s[0]] + (s[1..][..r - 1] + [x] + s[1..][r - 1..]) == s[..r] + [x] + s[r..]
  {
    var t := s[1..];
    assert [s[0]] + t[..r - 1] == s[..r];
    assert t[r - 1..] == s[r..];
  }

  lemma {:induction false} LowerBoundOfTail<V>(s: seq<Element<V>>, key: Time, r: nat)
    requires r > 0 && Ascending(s) && IsLowerBound(s, key, r)
    ensures Ascending(s[1..]) && IsLowerBound(s[1..], key, r - 1) && s[0].key < key
  {
  }

  /** The standard rotation of [first, last) that brings `middle` to the front. */
  function Rotated<T>(s: seq<T>, first: nat, middle: nat, last: nat): seq<T>
    requires first <= middle <= last <= |s|
  {
    s[..first] + s[middle..last] + s[first..middle] + s[last..]
  }

  /** What a rotation achieves: the mover stands right in front of the old target. */
  function Moved<T>(s: seq<T>, mover: nat, target: nat): seq<T>
    requires mover < |s| && target <= |s|
  {
    var rest := s[..mover] + s[mover + 1..];
    var to := if mover < target then target - 1 else target;
    rest[..to] + [s[mover]] + rest[to..]
  }

  datatype Placement = At(index: nat) | PastEnd
  datatype Lookup = Found(index: nat) | Missing | LookedPastEnd

  class OrderMap<V> {
    var storage: seq<Element<V>>

    constructor ()
      ensures storage == []
    {
      storage := [];
    }

    /** Binary search in [from, to). */
    method LowerBoundIn(from: nat, to: nat, k: Time) returns (r: nat)
      requires from <= to <= |storage| && Ascending(storage)
      ensures from <= r <= to
      ensures forall i :: from <= i < r ==> storage[i].key < k
      ensures forall i :: r <= i < to ==> k <= storage[i].key
    {
      var lo, hi := from, to;
      while lo < hi
        invariant from <= lo <= hi <= to
        invariant forall i :: from <= i < lo ==> storage[i].key < k
        invariant forall i :: hi <= i < to ==> k <= storage[i].key
      {
        var mid := (lo + hi) / 2;
        if storage[mid].key < k { lo := mid + 1; } else { hi := mid; }
      }
      r := lo;
    }

    method LowerBound(k: Time) returns (r: nat)
      requires Ascending(storage)
      ensures IsLowerBound(storage, k, r)
    {
      r := LowerBoundIn(0, |storage|, k);
    }

    /**
     Any hint, good or bad, gives the reference insertion, except a hint inside a non-empty
     index for a key above every stored one: the search then ends past the end and is read.
     */
    method EmplaceHint(hint: nat, key: Time, value: V) returns (r: Placement)
      requires Ascending(storage) && hint <= |storage|
      modifies this
      ensures r.PastEnd? <==> old(storage) != [] && hint < |old(storage)| && old(storage)[|old(storage)| - 1].key < key
      ensures r.PastEnd? ==> storage == old(storage)
      ensures r.At? ==> storage == InsertUnique(old(storage), key, value)
      ensures r.At? ==> r.index < |storage| && storage[r.index].key == key
    {
      if storage == [] {
        storage := [Element(key, value)];
        return At(0);
      }
      var at := PlaceOf(hint, key);
      if hint < |storage| && at == |storage| {
        return PastEnd;
      }
      InsertUniqueAt(storage, key, value, at);
      if at < |storage| && storage[at].key == key {
        return At(at);
      }
      storage := storage[..at] + [Element(key, value)] + storage[at..];
      r := At(at);
    }

    /** Searches on the side of the hint where the key belongs. */
    method PlaceOf(hint: nat, key: Time) returns (at: nat)
      requires Ascending(storage) && storage != [] && hint <= |storage|
      ensures IsLowerBound(storage, key, at)
    {
      if hint == |storage| {
        if storage[hint - 1].key < key {
          at := hint;
        } else {
          at := LowerBound(key);
        }
      } else if storage[hint].key == key {
        at := hint;
      } else if key < storage[hint].key {
        if hint == 0 || storage[hint - 1].key < key {
          at := hint;
        } else {
          at := LowerBoundIn(0, hint, key);
        }
      } else {
        at := LowerBoundIn(hint, |storage|, key);
      }
    }

    /**
     Moves one element in front of another.  A debug assertion wants the mover not to stand there
     already; `tripped` says that it fails, and a build without assertions goes on and moves nothing.
     */
    method Rotate(mover: nat, target: nat) returns (tripped: bool)
      requires mover < |storage| && target <= |storage| && mover != target
      modifies this
      ensures storage == Moved(old(storage), mover, target)
      ensures tripped <==> mover + 1 == target
      ensures tripped ==> storage == old(storage)
    {
      tripped := mover + 1 == target;
      if mover < target {
        storage := Rotated(storage, mover, mover + 1, target);
      } else {
        storage := Rotated(storage, target, mover, mover + 1);
      }
    }

    method Find(key: Time) returns (r: Lookup)
      requires Ascending(storage)
      ensures r.Found? <==> exists i :: 0 <= i < |storage| && storage[i].key == key
      ensures r.Found? ==> r.index < |storage| && storage[r.index].key == key
      ensures r.LookedPastEnd? <==> forall i :: 0 <= i < |storage| ==> storage[i].key < key
    {
      var it := LowerBound(key);
      if it == |storage| {
        return LookedPastEnd;
      }
      if storage[it].key == key {
        return Found(it);
      }
      r := Missing;
    }

    method EraseKey(key: Time) returns (r: Lookup)
      requires Ascending(storage)
      modifies this
      ensures r.Found? <==> exists i :: 0 <= i < |old(storage)| && old(storage)[i].key == key
      ensures r.Found? ==> r.index < |old(storage)| && old(storage)[r.index].key == key
      ensures r.Found? ==> storage == old(storage)[..r.index] + old(storage)[r.index + 1..]
      ensures !r.Found? ==> storage == old(storage)
      ensures r.LookedPastEnd? <==> forall i :: 0 <= i < |old(storage)| ==> old(storage)[i].key < key
    {
      r := Find(key);
      if r.Found? {
        storage := storage[..r.index] + storage[r.index + 1..];
      }
    }
  }
}
