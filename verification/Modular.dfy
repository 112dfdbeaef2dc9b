/** Comparison of version numbers that wrap around. */
module Modular {

  datatype Comparison = TooFar | Less(value: bool)

  /** The largest value of the signed type of the same width, and half of it. */
  function Window(size: nat): nat
    requires size > 1
  {
    size / 2 - 1
  }

  function HalfWindow(size: nat): nat
    requires size > 1
  {
    Window(size) / 2
  }

  /** Unsigned arithmetic modulo `size`. */
  function Wrap(x: int, size: nat): (r: nat)
    requires size > 0
    ensures r < size
  {
    x % size
  }

  /** Is the basis before `rhs`?  Refuses when the two are too far apart. */
  function LessThan(basis: nat, rhs: nat, size: nat): Comparison
    requires size > 1
  {
    var distance := Wrap(rhs - basis + HalfWindow(size), size);
    if Window(size) < distance then TooFar else Less(HalfWindow(size) < distance)
  }

  function LessThanOrEqual(basis: nat, rhs: nat, size: nat): Comparison
    requires size > 1
  {
    if basis == rhs then Less(true) else LessThan(basis, rhs, size)
  }

  /** Is `lhs` before `rhs`, both counted from the basis? */
  predicate LessThanFrom(basis: nat, lhs: nat, rhs: nat, size: nat)
    requires size > 0
  {
    Wrap(lhs - basis, size) < Wrap(rhs - basis, size)
  }

  predicate LessThanOrEqualFrom(basis: nat, lhs: nat, rhs: nat, size: nat)
    requires size > 0
  {
    lhs == rhs || LessThanFrom(basis, lhs, rhs, size)
  }

  /** The same subtraction for types narrower than `int`: it is done in `int` and does not wrap. */
  predicate PromotedLessThanFrom(basis: nat, lhs: nat, rhs: nat) {
    lhs - basis < rhs - basis
  }

  lemma WrapOffset(x: int, k: int, size: nat)
    requires size > 0
    ensures Wrap(x + k * size, size) == Wrap(x, size)
  {
    var q, r, y := x / size, x % size, x + k * size;
    assert x == q * size + r;
    assert y == (q + k) * size + r;
    RemainderUnique(y / size, y % size, q + k, r, size);
  }

  lemma RemainderUnique(q: int, r: nat, q': int, r': nat, size: nat)
    requires q * size + r == q' * size + r' && r < size && r' < size
    ensures r == r'
  {
    LessThanOneTurn(q - q', size);
    LessThanOneTurn(q' - q, size);
  }

  lemma LessThanOneTurn(k: int, size: nat)
    requires k * size < size
    ensures k <= 0
  {
  }

  lemma WrapDifference(x: int, y: int, d: int, size: nat)
    requires size > 0
    ensures Wrap(Wrap(y, size) - Wrap(x, size) + d, size) == Wrap(y - x + d, size)
  {
    var qx, qy := x / size, y / size;
    assert Wrap(x, size) == x - qx * size && Wrap(y, size) == y - qy * size;
    assert Wrap(y, size) - Wrap(x, size) + d == (y - x + d) + (qx - qy) * size;
    WrapOffset(y - x + d, qx - qy, size);
  }

  lemma WrapSmall(x: int, size: nat)
    requires 0 <= x < size
    ensures Wrap(x, size) == x
  {
  }

  /**
   For unbounded counters stored modulo `size`, the comparison is the true order exactly when
   the counters are at most a half window apart below and the rest of the window above; for
   all other distances within one wrap it refuses.
   */
  lemma ComparesTrueOrder(x: int, y: int, size: nat)
    requires size > 1
    requires -((size / 2 - 1) / 2) <= y - x < size - (size / 2 - 1) / 2
    ensures LessThan(Wrap(x, size), Wrap(y, size), size)
         == if y - x <= (size / 2 - 1) - (size / 2 - 1) / 2 then Less(x < y) else TooFar
  {
    var h := HalfWindow(size);
    WrapDifference(x, y, h, size);
    WrapSmall(y - x + h, size);
  }

  /** Counters that have not passed the basis by a whole turn are compared correctly. */
  lemma ComparesFromBasis(basis: int, x: int, y: int, size: nat)
    requires size > 0 && basis <= x < basis + size && basis <= y < basis + size
    ensures LessThanFrom(Wrap(basis, size), Wrap(x, size), Wrap(y, size), size) <==> x < y
  {
    WrapDifference(basis, x, 0, size);
    WrapDifference(basis, y, 0, size);
    WrapSmall(x - basis, size);
    WrapSmall(y - basis, size);
  }

  /** Comparing with equality answers `x <= y` wherever the strict comparison answers, and refuses elsewhere. */
  lemma ComparesWithEquality(x: int, y: int, size: nat)
    requires size > 1
    requires -((size / 2 - 1) / 2) <= y - x < size - (size / 2 - 1) / 2
    ensures LessThanOrEqual(Wrap(x, size), Wrap(y, size), size)
         == if y - x <= (size / 2 - 1) - (size / 2 - 1) / 2 then Less(x <= y) else TooFar
  {
    ComparesTrueOrder(x, y, size);
    if Wrap(x, size) == Wrap(y, size) {
      SameResidue(x, y, size);
    }
  }

  /** Counters less than one turn apart are equal when their residues are. */
  lemma SameResidue(x: int, y: int, size: nat)
    requires size > 0 && -(size as int) < y - x < size && Wrap(x, size) == Wrap(y, size)
    ensures x == y
  {
    var q, q' := x / size, y / size;
    assert y - x == (q' - q) * size;
    LessThanOneTurn(q' - q, size);
    LessThanOneTurn(q - q', size);
  }

  lemma ComparesWithEqualityFromBasis(basis: int, x: int, y: int, size: nat)
    requires size > 0 && basis <= x < basis + size && basis <= y < basis + size
    ensures LessThanOrEqualFrom(Wrap(basis, size), Wrap(x, size), Wrap(y, size), size) <==> x <= y
  {
    ComparesFromBasis(basis, x, y, size);
    if Wrap(x, size) == Wrap(y, size) {
      SameResidue(x, y, size);
    }
  }

  /** For the narrow types the two-argument comparison is right exactly for counters in the same turn. */
  lemma PromotedComparesExactly(basis: int, x: int, y: int, size: nat)
    requires size > 0 && basis <= x < basis + size && basis <= y < basis + size
    ensures (PromotedLessThanFrom(Wrap(basis, size), Wrap(x, size), Wrap(y, size)) <==> x < y)
       <==> x / size == y / size
  {
    InThisTurnOrTheNext(basis, x, size);
    InThisTurnOrTheNext(basis, y, size);
  }

  lemma InThisTurnOrTheNext(basis: int, x: int, size: nat)
    requires size > 0 && basis <= x < basis + size
    ensures var q := basis / size;
      || (x / size == q && x == q * size + Wrap(x, size) && Wrap(basis, size) <= Wrap(x, size))
      || (x / size == q + 1 && x == q * size + size + Wrap(x, size) && Wrap(x, size) < Wrap(basis, size))
  {
    var q, k := basis / size, x / size;
    assert basis == q * size + Wrap(basis, size) && x == k * size + Wrap(x, size);
    assert (k - q) * size == x - basis - Wrap(x, size) + Wrap(basis, size);
    assert (k - q - 1) * size == (k - q) * size - size;
    LessThanOneTurn(k - q - 1, size);
    assert (q - k) * size == -((k - q) * size);
    LessThanOneTurn(q - k, size);
  }
}
