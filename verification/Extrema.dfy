/**
 The extrema that bound a cubic on the unit interval, as the conflict detector
 computes them, and exactly when those bounds enclose the curve.
 */
module Extrema {
  import opened Splines

  function Abs(x: real): real { if x < 0.0 then -x else x }

  function Discriminant(p: Cubic): real { 4.0 * p.b * p.b - 12.0 * p.a * p.c }

  /** `root` plays the square root of the discriminant. */
  ghost predicate IsRoot(p: Cubic, root: real) {
    Discriminant(p) >= 0.0 ==> root >= 0.0 && root * root == Discriminant(p)
  }

  /** Parameters at which the curve is evaluated. */
  function CandidateTimes(p: Cubic, root: real): (ts: seq<real>)
    ensures |ts| >= 2 && ts[0] == 0.0 && ts[1] == 1.0
  {
    if Abs(p.a) < 0.000000000001 then
      if Abs(p.b) > 0.000000000001 then [0.0, 1.0, -p.c / (2.0 * p.b)] else [0.0, 1.0]
    else
      var D := Discriminant(p);
      if Abs(D) < 0.0001 then [0.0, 1.0, (-2.0 * p.b) / (6.0 * p.a)]
      else if D < 0.0 then [0.0, 1.0]
      else [0.0, 1.0, (-2.0 * p.b + root) / (6.0 * p.a), (-2.0 * p.b - root) / (6.0 * p.a)]
  }

  function MinAt(p: Cubic, ts: seq<real>): real
    requires ts != []
  {
    if |ts| == 1 then p.At(ts[0])
    else
      var rest := MinAt(p, ts[1..]);
      if rest < p.At(ts[0]) then rest else p.At(ts[0])
  }

  function MaxAt(p: Cubic, ts: seq<real>): real
    requires ts != []
  {
    if |ts| == 1 then p.At(ts[0])
    else
      var rest := MaxAt(p, ts[1..]);
      if p.At(ts[0]) < rest then rest else p.At(ts[0])
  }

  /** The smallest and the largest candidate value. */
  function LocalExtrema(p: Cubic, root: real): (real, real) {
    (MinAt(p, CandidateTimes(p, root)), MaxAt(p, CandidateTimes(p, root)))
  }

  ghost predicate Encloses(p: Cubic, bounds: (real, real)) {
    forall t :: 0.0 <= t <= 1.0 ==> bounds.0 <= p.At(t) <= bounds.1
  }

  // ---------------------------------------------------------------- bounds and candidates

  lemma {:induction false} MinAtBelow(p: Cubic, ts: seq<real>, i: nat)
    requires i < |ts|
    ensures MinAt(p, ts) <= p.At(ts[i])
    decreases |ts|
  {
    if i > 0 {
      MinAtBelow(p, ts[1..], i - 1);
    }
  }

  lemma {:induction false} MinAtAttained(p: Cubic, ts: seq<real>) returns (i: nat)
    requires ts != []
    ensures i < |ts| && MinAt(p, ts) == p.At(ts[i])
    decreases |ts|
  {
    if |ts| == 1 {
      i := 0;
    } else {
      i := MinAtAttained(p, ts[1..]);
      i := if MinAt(p, ts[1..]) < p.At(ts[0]) then i + 1 else 0;
    }
  }

  function Neg(p: Cubic): Cubic { Cubic(-p.d, -p.c, -p.b, -p.a) }

  lemma NegAt(p: Cubic, t: real)
    ensures Neg(p).At(t) == -p.At(t)
  {
  }

  lemma {:induction false} MaxIsMinOfNeg(p: Cubic, ts: seq<real>)
    requires ts != []
    ensures MaxAt(p, ts) == -MinAt(Neg(p), ts)
    decreases |ts|
  {
    NegAt(p, ts[0]);
    if |ts| > 1 {
      MaxIsMinOfNeg(p, ts[1..]);
    }
  }

  // ---------------------------------------------------------------- where the curve turns

  /** Slopes of one sign at both ends and in the middle order the values. */
  lemma Rises(p: Cubic, u: real, v: real)
    requires u <= v && p.Slope(u) >= 0.0 && p.Slope((u + v) / 2.0) >= 0.0 && p.Slope(v) >= 0.0
    ensures p.At(u) <= p.At(v)
  {
    Simpson(p, u, v);
    NonNegativeProduct((v - u) / 6.0, p.Slope(u) + 4.0 * p.Slope((u + v) / 2.0) + p.Slope(v));
  }

  lemma NonNegativeProduct(x: real, y: real)
    requires x >= 0.0 && y >= 0.0
    ensures x * y >= 0.0
  {
  }

  /** The two parameters with zero slope; the curve has its low turn at `lo` and its high turn at `hi`. */
  datatype Turns = Turns(lo: real, hi: real)

  function TurnsOf(p: Cubic, root: real): Turns
    requires p.a != 0.0
  {
    Turns((-2.0 * p.b + root) / (6.0 * p.a), (-2.0 * p.b - root) / (6.0 * p.a))
  }

  lemma SlopeFactors(p: Cubic, root: real, t: real)
    requires p.a != 0.0 && root * root == Discriminant(p)
    ensures var q := TurnsOf(p, root); p.Slope(t) == 3.0 * p.a * ((t - q.lo) * (t - q.hi))
  {
    var q := TurnsOf(p, root);
    var x, y := 6.0 * p.a * q.lo, 6.0 * p.a * q.hi;
    assert x == -2.0 * p.b + root && y == -2.0 * p.b - root;
    assert x * y == 4.0 * p.b * p.b - root * root;
    assert 36.0 * p.a * p.a * (q.lo * q.hi) == x * y;
    assert 3.0 * p.a * (q.lo + q.hi) == -2.0 * p.b;
    CancelFactor(p.a, 3.0 * p.a * (q.lo * q.hi), p.c);
  }

  lemma CancelFactor(a: real, x: real, y: real)
    requires a != 0.0 && 12.0 * a * x == 12.0 * a * y
    ensures x == y
  {
  }

  /** Parameters where the slope is not negative, by the sign of the leading coefficient. */
  ghost predicate NotFalling(a: real, q: Turns, t: real) {
    (a > 0.0 && (t <= q.hi || t >= q.lo)) || (a < 0.0 && q.lo <= t <= q.hi)
  }

  lemma TurnOrder(p: Cubic, root: real)
    requires p.a != 0.0 && root >= 0.0
    ensures var q := TurnsOf(p, root);
            q.lo - q.hi == root / (3.0 * p.a) && (p.a > 0.0 ==> q.hi <= q.lo) && (p.a < 0.0 ==> q.lo <= q.hi)
  {
    var q := TurnsOf(p, root);
    assert 6.0 * p.a * q.lo == -2.0 * p.b + root && 6.0 * p.a * q.hi == -2.0 * p.b - root;
    assert 6.0 * p.a * (q.lo - q.hi) == 2.0 * root;
    SignOfFactor(p.a, q.lo - q.hi, root);
  }

  lemma SignOfFactor(a: real, x: real, root: real)
    requires a != 0.0 && 6.0 * a * x == 2.0 * root && root >= 0.0
    ensures (a > 0.0 ==> x >= 0.0) && (a < 0.0 ==> x <= 0.0)
  {
    if a > 0.0 {
      assert x == root / (3.0 * a);
    } else {
      assert x == -(root / (-3.0 * a));
    }
  }

  lemma SlopeNotNegative(p: Cubic, root: real, t: real)
    requires p.a != 0.0 && root >= 0.0 && root * root == Discriminant(p)
    requires NotFalling(p.a, TurnsOf(p, root), t)
    ensures p.Slope(t) >= 0.0
  {
    var q := TurnsOf(p, root);
    TurnOrder(p, root);
    SlopeFactors(p, root, t);
    FactorSign(p.a, t - q.lo, t - q.hi);
  }

  lemma FactorSign(a: real, x: real, y: real)
    requires (a > 0.0 && ((x <= 0.0 && y <= 0.0) || (x >= 0.0 && y >= 0.0))) || (a < 0.0 && x >= 0.0 && y <= 0.0)
    ensures 3.0 * a * (x * y) >= 0.0
  {
    if a > 0.0 {
      if x <= 0.0 && y <= 0.0 { NonNegativeProduct(-x, -y); } else { NonNegativeProduct(x, y); }
      NonNegativeProduct(3.0 * a, x * y);
    } else {
      NonNegativeProduct(x, -y);
      NonNegativeProduct(-3.0 * a, x * (-y));
      assert 3.0 * a * (x * y) == (-3.0 * a) * (x * (-y));
    }
  }

  /** Between parameters on one rising branch the curve rises. */
  lemma RisesOnBranch(p: Cubic, root: real, u: real, v: real)
    requires p.a != 0.0 && root >= 0.0 && root * root == Discriminant(p) && u <= v
    requires var q := TurnsOf(p, root);
      (p.a > 0.0 && (v <= q.hi || q.lo <= u)) || (p.a < 0.0 && q.lo <= u && v <= q.hi)
    ensures p.At(u) <= p.At(v)
  {
    SlopeNotNegative(p, root, u);
    SlopeNotNegative(p, root, v);
    SlopeNotNegative(p, root, (u + v) / 2.0);
    Rises(p, u, v);
  }

  lemma TurnsOfNeg(p: Cubic, root: real)
    requires p.a != 0.0
    ensures TurnsOf(Neg(p), root) == Turns(TurnsOf(p, root).hi, TurnsOf(p, root).lo)
    ensures Discriminant(Neg(p)) == Discriminant(p)
  {
    Quotients(2.0 * p.b + root, p.a);
    Quotients(2.0 * p.b - root, p.a);
  }

  lemma Quotients(x: real, a: real)
    requires a != 0.0
    ensures x / (6.0 * (-a)) == (-x) / (6.0 * a)
  {
  }

  lemma FallsOnBranch(p: Cubic, root: real, u: real, v: real)
    requires p.a != 0.0 && root >= 0.0 && root * root == Discriminant(p) && u <= v
    requires var q := TurnsOf(p, root);
      (p.a < 0.0 && (v <= q.lo || q.hi <= u)) || (p.a > 0.0 && q.hi <= u && v <= q.lo)
    ensures p.At(v) <= p.At(u)
  {
    TurnsOfNeg(p, root);
    RisesOnBranch(Neg(p), root, u, v);
    NegAt(p, u);
    NegAt(p, v);
  }

  // ---------------------------------------------------------------- the least value on the unit interval

  /** The least value on [0, 1] is at an end or at the low turn inside. */
  lemma LeastValue(p: Cubic, root: real, t: real)
    requires p.a != 0.0 && root >= 0.0 && root * root == Discriminant(p) && 0.0 <= t <= 1.0
    ensures var lo := TurnsOf(p, root).lo;
            p.At(0.0) <= p.At(t) || p.At(1.0) <= p.At(t) || (0.0 < lo < 1.0 && p.At(lo) <= p.At(t))
  {
    var q := TurnsOf(p, root);
    TurnOrder(p, root);
    if p.a > 0.0 {
      if t <= q.hi {
        RisesOnBranch(p, root, 0.0, t);
      } else if t <= q.lo {
        FallsOnBranch(p, root, t, if q.lo < 1.0 then q.lo else 1.0);
      } else {
        RisesOnBranch(p, root, if q.lo > 0.0 then q.lo else 0.0, t);
      }
    } else {
      if t <= q.lo {
        FallsOnBranch(p, root, t, if q.lo < 1.0 then q.lo else 1.0);
      } else if t <= q.hi {
        RisesOnBranch(p, root, if q.lo > 0.0 then q.lo else 0.0, t);
      } else {
        FallsOnBranch(p, root, t, 1.0);
      }
    }
  }

  /** A curve that never turns has its least value at an end. */
  lemma LeastWithoutTurn(p: Cubic, t: real)
    requires p.a != 0.0 && Discriminant(p) <= 0.0 && 0.0 <= t <= 1.0
    ensures p.At(0.0) <= p.At(t) || p.At(1.0) <= p.At(t)
  {
    if p.a > 0.0 {
      NeverFalls(p, 0.0);
      NeverFalls(p, t / 2.0);
      NeverFalls(p, t);
      Rises(p, 0.0, t);
    } else {
      var n := Neg(p);
      NeverFalls(n, t);
      NeverFalls(n, (t + 1.0) / 2.0);
      NeverFalls(n, 1.0);
      Rises(n, t, 1.0);
      NegAt(p, t);
      NegAt(p, 1.0);
    }
  }

  lemma NeverFalls(p: Cubic, t: real)
    requires p.a > 0.0 && Discriminant(p) <= 0.0
    ensures p.Slope(t) >= 0.0
  {
    var y := 6.0 * p.a * t + 2.0 * p.b;
    assert 12.0 * p.a * p.Slope(t) == y * y - Discriminant(p);
    assert y * y >= 0.0;
    SignOfProduct(-p.Slope(t), 12.0 * p.a);
  }

  /** A parabola: its least value is at an end or at a vertex inside. */
  lemma LeastOfParabola(p: Cubic, t: real)
    requires p.a == 0.0 && 0.0 <= t <= 1.0
    ensures p.At(0.0) <= p.At(t) || p.At(1.0) <= p.At(t)
      || (p.b > 0.0 && 0.0 < -p.c / (2.0 * p.b) < 1.0 && p.At(-p.c / (2.0 * p.b)) <= p.At(t))
  {
    if p.b > 0.0 {
      var m := -p.c / (2.0 * p.b);
      VertexForm(p, m, t);
      VertexForm(p, m, 0.0);
      VertexForm(p, m, 1.0);
      assert (t - m) * (t - m) >= 0.0;
      NonNegativeProduct(p.b, (t - m) * (t - m));
      if m <= 0.0 {
        SquareMonotone(-m, t - m);
        NonNegativeProduct(p.b, (t - m) * (t - m) - m * m);
      } else if m >= 1.0 {
        SquareMonotone(m - 1.0, m - t);
        NonNegativeProduct(p.b, (m - t) * (m - t) - (m - 1.0) * (m - 1.0));
      }
    } else {
      ConcaveEnds(p, t);
    }
  }

  lemma SquareMonotone(x: real, y: real)
    requires 0.0 <= x <= y
    ensures x * x <= y * y
  {
  }

  lemma VertexForm(p: Cubic, m: real, x: real)
    requires p.a == 0.0 && p.b != 0.0 && m == -p.c / (2.0 * p.b)
    ensures p.At(x) == p.At(m) + p.b * ((x - m) * (x - m))
  {
    assert p.c == -2.0 * p.b * m;
  }

  lemma ConcaveEnds(p: Cubic, t: real)
    requires p.a == 0.0 && p.b <= 0.0 && 0.0 <= t <= 1.0
    ensures p.At(0.0) <= p.At(t) || p.At(1.0) <= p.At(t)
  {
    // p(t) - (1 - t) p(0) - t p(1) == -b t (1 - t) >= 0
    NonNegativeProduct(t, 1.0 - t);
    NonNegativeProduct(-p.b, t * (1.0 - t));
    var x, y := p.At(0.0), p.At(1.0);
    assert p.At(t) - ((1.0 - t) * x + t * y) == -p.b * (t * (1.0 - t));
    if x <= y {
      NonNegativeProduct(t, y - x);
      assert (1.0 - t) * x + t * y == x + t * (y - x);
    } else {
      NonNegativeProduct(1.0 - t, x - y);
      assert (1.0 - t) * x + t * y == y + (1.0 - t) * (x - y);
    }
  }

  // ---------------------------------------------------------------- exactly when the lower bound holds

  /** `x` is the low turn itself or lies on the far side of the curve's other crossing of that height. */
  predicate NoHigherThanLowTurn(a: real, q: Turns, x: real) {
    x == q.lo || a * (x - (3.0 * q.hi - q.lo) / 2.0) <= 0.0
  }

  /** Some candidate lies at the low turn, or so far beyond the high turn that its value is no larger. */
  ghost predicate LowTurnCovered(p: Cubic, root: real, ts: seq<real>) {
    if p.a != 0.0 then
      var q := TurnsOf(p, root);
      Discriminant(p) > 0.0 && 0.0 < q.lo < 1.0 ==>
        exists i :: 0 <= i < |ts| && NoHigherThanLowTurn(p.a, q, ts[i])
    else
      p.b > 0.0 && 0.0 < -p.c / (2.0 * p.b) < 1.0 ==> -p.c / (2.0 * p.b) in ts
  }

  ghost predicate BoundedBelow(p: Cubic, ts: seq<real>)
    requires ts != []
  {
    forall t :: 0.0 <= t <= 1.0 ==> MinAt(p, ts) <= p.At(t)
  }

  /** The curve meets the height of its low turn once more, beyond the high turn. */
  lemma LowTurnForm(p: Cubic, root: real, x: real)
    requires p.a != 0.0 && root * root == Discriminant(p)
    ensures var q := TurnsOf(p, root);
      p.At(x) - p.At(q.lo) == p.a * (x - (3.0 * q.hi - q.lo) / 2.0) * ((x - q.lo) * (x - q.lo))
  {
    var q := TurnsOf(p, root);
    SlopeFactors(p, root, 0.0);
    SlopeFactors(p, root, 1.0);
    assert p.c == 3.0 * p.a * (q.lo * q.hi);
    assert 2.0 * p.b == -3.0 * p.a * (q.lo + q.hi);
    CubicForm(p.a, q.lo, q.hi, x, p);
  }

  lemma CubicForm(a: real, l: real, h: real, x: real, p: Cubic)
    requires p.a == a && p.c == 3.0 * a * (l * h) && 2.0 * p.b == -3.0 * a * (l + h)
    ensures p.At(x) - p.At(l) == a * (x - (3.0 * h - l) / 2.0) * ((x - l) * (x - l))
  {
  }

  lemma NotAbove(p: Cubic, root: real, x: real)
    requires p.a != 0.0 && root * root == Discriminant(p)
    ensures var q := TurnsOf(p, root);
      p.At(x) <= p.At(q.lo) <==> NoHigherThanLowTurn(p.a, q, x)
  {
    var q := TurnsOf(p, root);
    LowTurnForm(p, root, x);
    var y := x - q.lo;
    var g := SquareOf(y);
    SignOrZero(p.a * (x - (3.0 * q.hi - q.lo) / 2.0), y, g);
  }

  lemma SquareOf(y: real) returns (g: real)
    ensures g == y * y
    ensures if y == 0.0 then g == 0.0 else g > 0.0
  {
    if y > 0.0 {
      SignOfProduct(y, y);
      g := y * y;
    } else if y < 0.0 {
      SignOfProduct(-y, -y);
      g := (-y) * (-y);
    } else {
      g := 0.0;
    }
  }

  lemma SignOrZero(f: real, y: real, square: real)
    requires if y == 0.0 then square == 0.0 else square > 0.0
    ensures f * square <= 0.0 <==> y == 0.0 || f <= 0.0
  {
    if y != 0.0 {
      SignOfProduct(f, square);
    }
  }

  lemma SignOfProduct(f: real, g: real)
    requires g > 0.0
    ensures f * g <= 0.0 <==> f <= 0.0
  {
  }

  /** The lower bound is sound exactly when the low turn, if it lies inside, is covered. */
  lemma {:induction false} LowerBoundExact(p: Cubic, root: real, ts: seq<real>)
    requires IsRoot(p, root) && |ts| >= 2 && ts[0] == 0.0 && ts[1] == 1.0
    ensures BoundedBelow(p, ts) <==> LowTurnCovered(p, root, ts)
  {
    if LowTurnCovered(p, root, ts) {
      forall t | 0.0 <= t <= 1.0 ensures MinAt(p, ts) <= p.At(t) {
        CoveredBound(p, root, ts, t);
      }
    } else {
      UncoveredTurn(p, root, ts);
    }
  }

  lemma {:induction false} CoveredBound(p: Cubic, root: real, ts: seq<real>, t: real)
    requires IsRoot(p, root) && |ts| >= 2 && ts[0] == 0.0 && ts[1] == 1.0
    requires LowTurnCovered(p, root, ts) && 0.0 <= t <= 1.0
    ensures MinAt(p, ts) <= p.At(t)
  {
    MinAtBelow(p, ts, 0);
    MinAtBelow(p, ts, 1);
    if p.a == 0.0 {
      CoveredVertex(p, root, ts, t);
    } else if Discriminant(p) <= 0.0 {
      LeastWithoutTurn(p, t);
    } else {
      CoveredLowTurn(p, root, ts, t);
    }
  }

  lemma {:induction false} CoveredVertex(p: Cubic, root: real, ts: seq<real>, t: real)
    requires p.a == 0.0 && ts != [] && LowTurnCovered(p, root, ts) && 0.0 <= t <= 1.0
    requires MinAt(p, ts) <= p.At(0.0) && MinAt(p, ts) <= p.At(1.0)
    ensures MinAt(p, ts) <= p.At(t)
  {
    LeastOfParabola(p, t);
    if p.b > 0.0 && -p.c / (2.0 * p.b) in ts {
      var i :| 0 <= i < |ts| && ts[i] == -p.c / (2.0 * p.b);
      MinAtBelow(p, ts, i);
    }
  }

  lemma {:induction false} CoveredLowTurn(p: Cubic, root: real, ts: seq<real>, t: real)
    requires p.a != 0.0 && root >= 0.0 && root * root == Discriminant(p) > 0.0
    requires ts != [] && LowTurnCovered(p, root, ts) && 0.0 <= t <= 1.0
    requires MinAt(p, ts) <= p.At(0.0) && MinAt(p, ts) <= p.At(1.0)
    ensures MinAt(p, ts) <= p.At(t)
  {
    LeastValue(p, root, t);
    var q := TurnsOf(p, root);
    if 0.0 < q.lo < 1.0 {
      var i :| 0 <= i < |ts| && NoHigherThanLowTurn(p.a, q, ts[i]);
      NotAbove(p, root, ts[i]);
      MinAtBelow(p, ts, i);
    }
  }

  /** An uncovered low turn lies strictly below every candidate. */
  lemma {:induction false} UncoveredTurn(p: Cubic, root: real, ts: seq<real>)
    requires IsRoot(p, root) && ts != [] && !LowTurnCovered(p, root, ts)
    ensures !BoundedBelow(p, ts)
  {
    var i := MinAtAttained(p, ts);
    if p.a == 0.0 {
      UncoveredVertex(p, -p.c / (2.0 * p.b), ts[i]);
    } else {
      NotAbove(p, root, ts[i]);
    }
  }

  lemma UncoveredVertex(p: Cubic, m: real, x: real)
    requires p.a == 0.0 && p.b > 0.0 && m == -p.c / (2.0 * p.b) && x != m
    ensures p.At(m) < p.At(x)
  {
    VertexForm(p, m, x);
    var g := SquareOf(x - m);
    SignOrZero(p.b, x - m, g);
  }

  // ---------------------------------------------------------------- both bounds

  ghost predicate TurnsCovered(p: Cubic, root: real, ts: seq<real>) {
    LowTurnCovered(p, root, ts) && LowTurnCovered(Neg(p), root, ts)
  }

  lemma {:induction false} UpperIsLowerOfNeg(p: Cubic, ts: seq<real>)
    requires ts != []
    ensures BoundedBelow(Neg(p), ts) <==> forall t :: 0.0 <= t <= 1.0 ==> p.At(t) <= MaxAt(p, ts)
  {
    MaxIsMinOfNeg(p, ts);
    forall t ensures Neg(p).At(t) == -p.At(t) {
      NegAt(p, t);
    }
  }

  /** The bounds enclose the curve exactly when every turn inside the interval is covered. */
  lemma ExtremaExact(p: Cubic, root: real)
    requires IsRoot(p, root)
    ensures Encloses(p, LocalExtrema(p, root)) <==> TurnsCovered(p, root, CandidateTimes(p, root))
  {
    var ts := CandidateTimes(p, root);
    NegDiscriminant(p);
    LowerBoundExact(p, root, ts);
    LowerBoundExact(Neg(p), root, ts);
    UpperIsLowerOfNeg(p, ts);
  }

  lemma NegDiscriminant(p: Cubic)
    ensures Discriminant(Neg(p)) == Discriminant(p)
  {
  }

  /** The branches without a tolerance: no cubic term, or a clear cubic term and discriminant. */
  predicate ExactBranch(p: Cubic) {
    || (p.a == 0.0 && (p.b == 0.0 || Abs(p.b) > 0.000000000001))
    || (Abs(p.a) >= 0.000000000001 && Abs(Discriminant(p)) >= 0.0001)
  }

  /** In the branches without a tolerance the bounds always enclose the curve. */
  lemma ExactBranchEncloses(p: Cubic, root: real)
    requires IsRoot(p, root) && ExactBranch(p)
    ensures Encloses(p, LocalExtrema(p, root))
  {
    var ts := CandidateTimes(p, root);
    if p.a == 0.0 {
      if p.b != 0.0 {
        var m := -p.c / (2.0 * p.b);
        assert ts[2] == m;
        Quotient(p.c, p.b);
      }
    } else if Discriminant(p) > 0.0 {
      TurnsOfNeg(p, root);
      assert ts[2] == TurnsOf(p, root).lo && ts[3] == TurnsOf(p, root).hi;
    } else {
      NegDiscriminant(p);
    }
    ExtremaExact(p, root);
  }

  /** An end of the interval, or a point where the curve stands still. */
  ghost predicate EndOrTurn(p: Cubic, t: real) {
    t == 0.0 || t == 1.0 || p.Slope(t) == 0.0
  }

  lemma CandidatesAreTurns(p: Cubic, root: real, i: nat)
    requires IsRoot(p, root) && ExactBranch(p) && i < |CandidateTimes(p, root)|
    ensures EndOrTurn(p, CandidateTimes(p, root)[i])
  {
    var t := CandidateTimes(p, root)[i];
    if p.a == 0.0 {
      if i == 2 {
        assert t == -p.c / (2.0 * p.b);
        assert 2.0 * p.b * t == -p.c;
      }
    } else if i >= 2 {
      SlopeFactors(p, root, t);
      var q := TurnsOf(p, root);
      assert t == q.lo || t == q.hi;
      assert (t - q.lo) * (t - q.hi) == 0.0;
    }
  }

  /** In the branches without a tolerance each bound is taken by the curve, at an end or at a turn. */
  lemma BoundsAttained(p: Cubic, root: real) returns (low: real, high: real)
    requires IsRoot(p, root) && ExactBranch(p)
    ensures EndOrTurn(p, low) && EndOrTurn(p, high)
    ensures LocalExtrema(p, root) == (p.At(low), p.At(high))
  {
    var ts := CandidateTimes(p, root);
    var i := MinAtAttained(p, ts);
    CandidatesAreTurns(p, root, i);
    low := ts[i];
    MaxIsMinOfNeg(p, ts);
    var j := MinAtAttained(Neg(p), ts);
    CandidatesAreTurns(p, root, j);
    high := ts[j];
    NegAt(p, high);
  }

  lemma Quotient(c: real, b: real)
    requires b != 0.0
    ensures -(-c) / (2.0 * -b) == -c / (2.0 * b)
  {
  }

  // ---------------------------------------------------------------- the condition in the coefficients

  /** The curve's point of symmetry, and how far its two turns lie on either side. */
  function Centre(p: Cubic): real
    requires p.a != 0.0
  {
    (-2.0 * p.b) / (6.0 * p.a)
  }

  function HalfWidth(p: Cubic, root: real): real
    requires p.a != 0.0
  {
    root / (6.0 * Abs(p.a))
  }

  lemma PlaceOfTurns(p: Cubic, root: real)
    requires p.a != 0.0
    ensures var q, m, w := TurnsOf(p, root), Centre(p), HalfWidth(p, root);
      if p.a > 0.0 then q == Turns(m + w, m - w) else q == Turns(m - w, m + w)
  {
    Split(-2.0 * p.b, root, p.a);
    Split(-2.0 * p.b, -root, p.a);
    if p.a < 0.0 { Quotients(root, p.a); }
  }

  lemma Split(x: real, y: real, a: real)
    requires a != 0.0
    ensures (x + y) / (6.0 * a) == x / (6.0 * a) + y / (6.0 * a) && (-y) / (6.0 * a) == -(y / (6.0 * a))
  {
  }

  /** Some candidate lies below the mirror point of each turn inside the interval, on its side. */
  ghost predicate TurnsClear(ts: seq<real>, m: real, w: real) {
    && (0.0 < m + w < 1.0 ==> exists i :: 0 <= i < |ts| && ts[i] <= m - 2.0 * w)
    && (0.0 < m - w < 1.0 ==> exists i :: 0 <= i < |ts| && m + 2.0 * w <= ts[i])
  }

  /** No candidate hits a turn inside the interval. */
  ghost predicate MissesTurns(ts: seq<real>, m: real, w: real) {
    forall i :: 0 <= i < |ts| && 0.0 < ts[i] < 1.0 ==> ts[i] != m + w && ts[i] != m - w
  }

  lemma SideOfMirror(a: real, q: Turns, m: real, w: real, x: real)
    requires a != 0.0 && q == if a > 0.0 then Turns(m + w, m - w) else Turns(m - w, m + w)
    ensures NoHigherThanLowTurn(a, q, x) <==> x == q.lo || (if a > 0.0 then x <= m - 2.0 * w else m + 2.0 * w <= x)
  {
    var f := (3.0 * q.hi - q.lo) / 2.0;
    if a > 0.0 {
      assert f == m - 2.0 * w;
      SignOfProduct(x - f, a);
    } else {
      assert f == m + 2.0 * w;
      SignOfProduct(f - x, -a);
      assert (f - x) * (-a) == a * (x - f);
    }
  }

  /** The low turn of a curve with two turns, by the side it lies on. */
  lemma {:induction false} LowTurnClear(p: Cubic, root: real, ts: seq<real>, m: real, w: real)
    requires p.a != 0.0 && Discriminant(p) > 0.0 && m == Centre(p) && w == HalfWidth(p, root) && MissesTurns(ts, m, w)
    ensures LowTurnCovered(p, root, ts)
       <==> if p.a > 0.0 then 0.0 < m + w < 1.0 ==> exists i :: 0 <= i < |ts| && ts[i] <= m - 2.0 * w
            else 0.0 < m - w < 1.0 ==> exists i :: 0 <= i < |ts| && m + 2.0 * w <= ts[i]
  {
    PlaceOfTurns(p, root);
    var q := TurnsOf(p, root);
    forall i | 0 <= i < |ts|
      ensures NoHigherThanLowTurn(p.a, q, ts[i])
         <==> ts[i] == q.lo || (if p.a > 0.0 then ts[i] <= m - 2.0 * w else m + 2.0 * w <= ts[i])
    {
      SideOfMirror(p.a, q, m, w, ts[i]);
    }
  }

  lemma {:induction false} TurnsClearExactly(p: Cubic, root: real, ts: seq<real>, m: real, w: real)
    requires p.a != 0.0 && Discriminant(p) > 0.0 && m == Centre(p) && w == HalfWidth(p, root) && MissesTurns(ts, m, w)
    ensures TurnsCovered(p, root, ts) <==> TurnsClear(ts, m, w)
  {
    NegDiscriminant(p);
    assert Centre(Neg(p)) == m by { Quotients(2.0 * p.b, p.a); }
    LowTurnClear(p, root, ts, m, w);
    LowTurnClear(Neg(p), root, ts, m, w);
  }

  /** Both turns are passed over: the ends, or the vertex candidate, reach beyond their mirror points. */
  predicate ReachesMirrors(low: real, high: real, m: real, w: real) {
    (0.0 < m + w < 1.0 ==> low <= m - 2.0 * w) && (0.0 < m - w < 1.0 ==> m + 2.0 * w <= high)
  }

  /** The vertex candidate of a curve with a negligible cubic coefficient. */
  function Vertex(p: Cubic): real
    requires p.b != 0.0
  {
    -p.c / (2.0 * p.b)
  }

  /** When the bounds enclose the curve, in the coefficients alone. */
  predicate EnclosesByCoefficients(p: Cubic, root: real) {
    if p.a == 0.0 then
      p.b == 0.0 || Abs(p.b) > 0.000000000001 || !(0.0 < Vertex(p) < 1.0)
    else if Discriminant(p) <= 0.0 || ExactBranch(p) then true
    else
      var m, w := Centre(p), HalfWidth(p, root);
      if Abs(p.a) < 0.000000000001 && Abs(p.b) > 0.000000000001 then
        ReachesMirrors(if Vertex(p) < 0.0 then Vertex(p) else 0.0, if Vertex(p) > 1.0 then Vertex(p) else 1.0, m, w)
      else
        ReachesMirrors(0.0, 1.0, m, w)
  }

  lemma PositiveRoot(p: Cubic, root: real)
    requires IsRoot(p, root) && p.a != 0.0 && Discriminant(p) > 0.0
    ensures root > 0.0 && HalfWidth(p, root) > 0.0
  {
    assert root != 0.0;
    PositiveQuotient(root, 6.0 * Abs(p.a));
  }

  lemma PositiveQuotient(x: real, y: real)
    requires x > 0.0 && y > 0.0
    ensures x / y > 0.0
  {
  }

  /** A vertex candidate inside the interval is no turn of the curve. */
  lemma VertexMissesTurns(p: Cubic, root: real)
    requires IsRoot(p, root) && p.a != 0.0 && p.b != 0.0 && Discriminant(p) > 0.0 && 0.0 < Vertex(p)
    ensures Vertex(p) != Centre(p) + HalfWidth(p, root) && Vertex(p) != Centre(p) - HalfWidth(p, root)
  {
    var x, q := Vertex(p), TurnsOf(p, root);
    PlaceOfTurns(p, root);
    SlopeFactors(p, root, x);
    assert p.c == -2.0 * p.b * x;
    NonZeroProduct(p.a, x, p.Slope(x));
    NonZeroFactors(p.a, x - q.lo, x - q.hi, p.Slope(x));
  }

  lemma NonZeroFactors(a: real, x: real, y: real, product: real)
    requires product == 3.0 * a * (x * y) && product != 0.0
    ensures x != 0.0 && y != 0.0
  {
  }

  lemma NonZeroProduct(a: real, x: real, product: real)
    requires a != 0.0 && x > 0.0 && product == 3.0 * a * (x * x)
    ensures product != 0.0
  {
    var g := SquareOf(x);
    if a > 0.0 { SignOfProduct(-g, a); } else { SignOfProduct(-g, -a); }
  }

  /** The bounds enclose the curve exactly under the condition on its coefficients, in every branch. */
  lemma ExtremaByCoefficients(p: Cubic, root: real)
    requires IsRoot(p, root)
    ensures Encloses(p, LocalExtrema(p, root)) <==> EnclosesByCoefficients(p, root)
  {
    ExtremaExact(p, root);
    if p.a == 0.0 {
      if p.b != 0.0 { StraightCovered(p, root); }
    } else if ExactBranch(p) {
      ExactBranchEncloses(p, root);
    } else if Discriminant(p) <= 0.0 {
      NegDiscriminant(p);
    } else {
      ToleranceCovered(p, root);
    }
  }

  lemma StraightCovered(p: Cubic, root: real)
    requires p.a == 0.0 && p.b != 0.0
    ensures TurnsCovered(p, root, CandidateTimes(p, root))
       <==> Abs(p.b) > 0.000000000001 || !(0.0 < Vertex(p) < 1.0)
  {
    Quotient(p.c, p.b);
    var ts := CandidateTimes(p, root);
    if Abs(p.b) > 0.000000000001 {
      assert ts[2] == Vertex(p);
    }
  }

  lemma ToleranceCovered(p: Cubic, root: real)
    requires IsRoot(p, root) && p.a != 0.0 && Discriminant(p) > 0.0 && !ExactBranch(p)
    ensures TurnsCovered(p, root, CandidateTimes(p, root)) <==> EnclosesByCoefficients(p, root)
  {
    if Abs(p.a) < 0.000000000001 && Abs(p.b) > 0.000000000001 {
      VertexCovered(p, root, CandidateTimes(p, root), Vertex(p), Centre(p), HalfWidth(p, root));
    } else {
      EndsCovered(p, root, CandidateTimes(p, root), Centre(p), HalfWidth(p, root));
    }
  }

  lemma {:induction false} VertexCovered(p: Cubic, root: real, ts: seq<real>, x: real, m: real, w: real)
    requires IsRoot(p, root) && p.a != 0.0 && p.b != 0.0 && Discriminant(p) > 0.0
    requires x == Vertex(p) && m == Centre(p) && w == HalfWidth(p, root) && ts == [0.0, 1.0, x]
    ensures TurnsCovered(p, root, ts)
       <==> ReachesMirrors(if x < 0.0 then x else 0.0, if x > 1.0 then x else 1.0, m, w)
  {
    PositiveRoot(p, root);
    if 0.0 < x { VertexMissesTurns(p, root); }
    TurnsClearExactly(p, root, ts, m, w);
    ThreeCandidates(ts, x, m, w);
  }

  lemma {:induction false} EndsCovered(p: Cubic, root: real, ts: seq<real>, m: real, w: real)
    requires IsRoot(p, root) && p.a != 0.0 && Discriminant(p) > 0.0
    requires m == Centre(p) && w == HalfWidth(p, root) && (ts == [0.0, 1.0] || ts == [0.0, 1.0, m])
    ensures TurnsCovered(p, root, ts) <==> ReachesMirrors(0.0, 1.0, m, w)
  {
    PositiveRoot(p, root);
    TurnsClearExactly(p, root, ts, m, w);
    if |ts| == 2 { TwoCandidates(ts, m, w); } else { ThreeCandidates(ts, m, m, w); }
  }

  lemma {:induction false} TwoCandidates(ts: seq<real>, m: real, w: real)
    requires w > 0.0 && ts == [0.0, 1.0]
    ensures TurnsClear(ts, m, w) <==> ReachesMirrors(0.0, 1.0, m, w)
  {
    assert ts[0] == 0.0 && ts[1] == 1.0;
  }

  lemma {:induction false} ThreeCandidates(ts: seq<real>, x: real, m: real, w: real)
    requires w > 0.0 && ts == [0.0, 1.0, x]
    ensures TurnsClear(ts, m, w)
       <==> ReachesMirrors(if x < 0.0 then x else 0.0, if x > 1.0 then x else 1.0, m, w)
    ensures x == m ==> (TurnsClear(ts, m, w) <==> ReachesMirrors(0.0, 1.0, m, w))
  {
    assert ts[0] == 0.0 && ts[1] == 1.0 && ts[2] == x;
  }

  /** In the branch for a small discriminant the bounds can miss the curve. */
  lemma SmallDiscriminantMisses() returns (p: Cubic, root: real)
    ensures IsRoot(p, root) && Abs(p.a) >= 0.000000000001 && Abs(Discriminant(p)) < 0.0001
    ensures !Encloses(p, LocalExtrema(p, root))
  {
    p, root := Cubic(0.0, 2.999997, -3.0, 1.0), 0.006;
    var ts := CandidateTimes(p, root);
    assert ts == [0.0, 1.0, 1.0];
    var t := 0.999;
    assert p.At(0.0) == 0.0 && p.At(1.0) == 0.999997;
    assert p.At(t) == 0.999997002;
    MaxIsMinOfNeg(p, ts);
    var i := MinAtAttained(Neg(p), ts);
    NegAt(p, ts[i]);
    assert MaxAt(p, ts) < p.At(t);
  }
}
