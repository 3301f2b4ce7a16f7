/**
 How many sweeps of the pairwise coupling solver are enough.

 A sweep that starts outside the tolerance lowers the objective by at least a fixed amount, which depends
 on the table alone: either some coordinate moves far, and its own step pays for it, or all of them move
 so little that the coordinate outside the tolerance is still half as far outside when its turn comes.
 The objective is never negative, so only so many such sweeps fit.
 */
module CouplingConvergence {
  import opened PairwiseCoupling
  import opened RealArithmetic
  import opened Sums

  ghost predicate Within(x: real, b: real)
  {
    -b <= x <= b
  }

  // ------------------------------------------------------------- plain numbers

  lemma ProductWithin(x: real, y: real, a: real, b: real)
    requires Within(x, a) && Within(y, b)
    ensures Within(x * y, a * b)
  {
    if x >= 0.0 {
      PositiveProductWithin(x, y, a, b);
    } else {
      PositiveProductWithin(-x, y, a, b);
      assert (-x) * y == -(x * y);
    }
  }

  lemma PositiveProductWithin(x: real, y: real, a: real, b: real)
    requires 0.0 <= x <= a && Within(y, b)
    ensures Within(x * y, a * b)
  {
    OrderedProducts(x, y, b);
    OrderedProducts(x, -b, y);
    assert (-b) * x == -(x * b);
    OrderedProducts(b, x, a);
  }

  lemma Cancel(x: real, y: real, z: real)
    requires z > 0.0 && x * z <= y * z
    ensures x <= y
  {
    ProductSign(x - y, z);
    assert (x - y) * z == x * z - y * z;
  }

  /** One step of weight f, at most e, moves a component of the gradient by at most 2me. */
  lemma GradientMove(g: real, q: real, f: real, e: real, m: real)
    requires Within(g, m) && Within(q, m) && Within(f, e)
    ensures Within((1.0 - f) * g + f * q - g, 2.0 * m * e)
  {
    ProductWithin(f, q - g, e, 2.0 * m);
    assert (1.0 - f) * g + f * q - g == f * (q - g);
  }

  lemma SquareWithin(f: real, e: real)
    requires Within(f, e) && e <= 1.0
    ensures 0.0 <= Square(f) <= e
  {
    ProductWithin(f, f, e, e);
    SquareSign(f);
    assert Square(f) <= e * e;
    OrderedProducts(e, e, 1.0);
    assert e * e <= e;
  }

  /** It lowers the objective by at most as much. */
  lemma ObjectiveMove(c: real, f: real, e: real, m: real)
    requires 0.0 <= c <= 2.0 * m && Within(f, e) && e <= 1.0
    ensures 0.0 <= Square(f) * c <= 2.0 * m * e
  {
    SquareWithin(f, e);
    SquareTimes(Square(f), c, e, 2.0 * m);
  }

  lemma SquareTimes(s: real, c: real, e: real, n: real)
    requires 0.0 <= s <= e && 0.0 <= c <= n
    ensures 0.0 <= s * c <= n * e
  {
    PositiveProductWithin(s, c, e, n);
    OrderedProducts(c, 0.0, s);
  }

  /** A gap of at least half of x asks for a step of at least e. */
  lemma StepForGap(d: real, gap: real, q: real, m: real, e: real, x: real)
    requires 1.0 + d > 0.0 && d * q == -gap && 0.0 < q <= m
    requires x > 0.0 && 0.0 < e < 1.0 && e * (2.0 * m + x) <= x
    requires gap >= 0.5 * x || gap <= -0.5 * x
    ensures Weight(d) >= e || Weight(d) <= -e
  {
    var f := Weight(d);
    if d >= 0.0 {
      OrderedProducts(d, q, m);
      RisingStep(d, f, m, e, x);
    } else {
      OrderedProducts(-d, q, m);
      assert (-d) * q == -(d * q);
      FallingStep(-d, -f, m, e, x);
    }
  }

  lemma RisingStep(d: real, f: real, m: real, e: real, x: real)
    requires d >= 0.0 && f * (1.0 + d) == d && m > 0.0
    requires x > 0.0 && 0.0 < e < 1.0 && e * (2.0 * m + x) <= x
    requires d * m >= 0.5 * x
    ensures f >= e
  {
    Distribute(e, 2.0 * m, x);
    Distribute(d * m, 1.0, -e);
    OrderedProducts(1.0 - e, 0.5 * x, d * m);
    assert (d * m) * (1.0 - e) >= m * e;
    assert (d - e * (1.0 + d)) * m == (d * m) * (1.0 - e) - m * e;
    Cancel(0.0, d - e * (1.0 + d), m);
    Cancel(e, f, 1.0 + d);
  }

  lemma FallingStep(a: real, b: real, m: real, e: real, x: real)
    requires 0.0 < a < 1.0 && b * (1.0 - a) == a && m > 0.0
    requires x > 0.0 && 0.0 < e < 1.0 && e * (2.0 * m + x) <= x
    requires a * m >= 0.5 * x
    ensures b >= e
  {
    Distribute(e, 2.0 * m, x);
    ProductSign(e, x);
    assert e * m <= a * m;
    Cancel(e, a, m);
    SquareSign(a);
    assert a * (1.0 - a) == a - Square(a);
    Cancel(a, b, 1.0 - a);
  }

  /** The drop of a step of weight at least e. */
  lemma DropOfStep(f: real, c: real, e: real, low: real)
    requires f >= e || f <= -e
    requires e > 0.0 && 0.0 < low <= c
    ensures Square(f) * c >= Square(e) * low
  {
    var w := if f < 0.0 then -f else f;
    assert Square(w) == Square(f);
    OrderedProducts(w, e, w);
    OrderedProducts(e, e, w);
    SquareSign(f);
    OrderedProducts(Square(f), low, c);
    OrderedProducts(low, Square(e), Square(f));
  }

  lemma ShortStepFits(m: real, n: real, x: real)
    requires m > 0.0 && n >= 1.0 && x > 0.0
    ensures 8.0 * m * n + 2.0 * x > 0.0
    ensures var e := x / (8.0 * m * n + 2.0 * x);
      && 0.0 < e < 1.0
      && 8.0 * m * e * n <= x
      && e * (2.0 * m + x) <= x
  {
    var mn := m * n;
    OrderedProducts(m, 1.0, n);
    var c := 8.0 * mn + 2.0 * x;
    assert 8.0 * m * n == 8.0 * mn;
    QuotientTimes(x, c);
    var e := x / c;
    Distribute(e, 8.0 * mn, 2.0 * x);
    ProductSign(x, e);
    assert x * e == e * x;
    assert 8.0 * m * e * n == e * (8.0 * mn);
    OrderedProducts(e, 2.0 * m + x, c);
    if e >= 1.0 {
      OrderedProducts(c, 1.0, e);
    }
  }

  // ------------------------------------------------------- bounds from the table

  ghost function Diagonal(k: nat, r: Table): Vec
  {
    t => Coupling(k, r)(t)(t)
  }

  /** The sum of the diagonal: no entry of the matrix is larger in size. */
  ghost function Trace(k: nat, r: Table): real
  {
    Sum(k, Diagonal(k, r))
  }

  lemma DiagonalBelowTrace(k: nat, r: Table, s: nat)
    requires Pairwise(k, r) && k >= 2 && s < k
    ensures 0.0 < Coupling(k, r)(s)(s) <= Trace(k, r)
  {
    DiagonalPositive(k, r, s);
    forall t | 0 <= t < k ensures Diagonal(k, r)(t) >= 0.0 {
      DiagonalPositive(k, r, t);
    }
    TermBelowSum(k, Diagonal(k, r), s);
  }

  lemma {:induction false} TermBelowSum(n: nat, f: Vec, s: nat)
    requires s < n && forall t :: 0 <= t < n ==> f(t) >= 0.0
    ensures f(s) <= Sum(n, f)
  {
    if s == n - 1 {
      SumOfNonnegatives(n - 1, f);
    } else {
      TermBelowSum(n - 1, f, s);
    }
  }

  /** An entry off the diagonal is no larger than the larger of its two squares on the diagonal. */
  lemma EntryBelowTrace(k: nat, r: Table, s: nat, t: nat)
    requires Pairwise(k, r) && k >= 2 && s < k && t < k
    ensures Within(Coupling(k, r)(s)(t), Trace(k, r))
  {
    DiagonalBelowTrace(k, r, s);
    DiagonalBelowTrace(k, r, t);
    if s != t {
      SquareInDiagonal(k, r, s, t);
      SquareInDiagonal(k, r, t, s);
      OffDiagonal(k, r, s, t);
      hide Coupling;
      hide Trace;
      ProductBelowSquares(r[s][t], r[t][s]);
    }
  }

  lemma OffDiagonal(k: nat, r: Table, s: nat, t: nat)
    requires Pairwise(k, r) && s < k && t < k && s != t
    ensures Coupling(k, r)(s)(t) == -(r[s][t] * r[t][s])
  {
    assert Coupling(k, r)(s)(t) == -(r[t][s] * r[s][t]);
  }

  lemma SquareInDiagonal(k: nat, r: Table, s: nat, t: nat)
    requires Pairwise(k, r) && s < k && t < k && s != t
    ensures Square(r[s][t]) <= Coupling(k, r)(t)(t)
  {
    forall j | 0 <= j < k ensures Squares(r, t)(j) >= 0.0 {
      SquareSign(Entry(r, j, t));
    }
    TermBelowSum(k, Squares(r, t), s);
  }

  lemma ProductBelowSquares(x: real, y: real)
    requires x > 0.0 && y > 0.0
    ensures 0.0 < x * y
    ensures x * y <= Square(x) || x * y <= Square(y)
  {
    ProductSign(x, y);
    if x <= y {
      OrderedProducts(y, x, y);
    } else {
      OrderedProducts(x, y, x);
    }
  }

  /** The length of a step that does not count as far. */
  ghost function ShortStep(k: nat, r: Table): (e: real)
    requires Pairwise(k, r) && k >= 2
    ensures 0.0 < e < 1.0
    ensures 8.0 * Trace(k, r) * e * k as real <= Tolerance(k)
    ensures e * (2.0 * Trace(k, r) + Tolerance(k)) <= Tolerance(k)
  {
    DiagonalBelowTrace(k, r, 0);
    ShortStepFits(Trace(k, r), k as real, Tolerance(k));
    Tolerance(k) / (8.0 * Trace(k, r) * k as real + 2.0 * Tolerance(k))
  }

  lemma LeastDiagonal(k: nat, r: Table, t: nat)
    requires Pairwise(k, r) && k >= 2 && t < k
    ensures 0.0 < LeastOf(k, Diagonal(k, r)) <= Coupling(k, r)(t)(t)
  {
    var s :| 0 <= s < k && Diagonal(k, r)(s) == LeastOf(k, Diagonal(k, r));
    DiagonalPositive(k, r, s);
    assert LeastOf(k, Diagonal(k, r)) <= Diagonal(k, r)(t);
  }

  /** By how much, at least, a sweep that starts outside the tolerance lowers the objective. */
  ghost function Progress(k: nat, r: Table): (c: real)
    requires Pairwise(k, r) && k >= 2
    ensures c > 0.0
  {
    var low := LeastOf(k, Diagonal(k, r));
    LeastDiagonal(k, r, 0);
    SquareSign(ShortStep(k, r));
    ProductSign(low, Square(ShortStep(k, r)));
    Square(ShortStep(k, r)) * low
  }

  lemma DotWithin(k: nat, p: seq<real>, v: Vec, m: real)
    requires InSimplex(k, p) && forall i :: 0 <= i < k ==> Within(v(i), m)
    ensures Within(Dot(k, At(p), v), m)
  {
    WeightedBetween(k, p, v, -m);
    var w: Vec := i => -1.0 * v(i);
    WeightedBetween(k, p, w, -m);
    DotLinear(k, At(p), -1.0, v, 0.0, v, w);
  }

  lemma GradientWithin(k: nat, r: Table, p: seq<real>, u: nat)
    requires Pairwise(k, r) && Distribution(k, p) && k >= 2 && u < k
    ensures Within(Gradient(k, r, p)(u), Trace(k, r))
  {
    forall i | 0 <= i < k ensures Within(Coupling(k, r)(u)(i), Trace(k, r)) {
      EntryBelowTrace(k, r, u, i);
    }
    DotWithin(k, p, Coupling(k, r)(u), Trace(k, r));
    DotCommutes(k, At(p), Coupling(k, r)(u));
  }

  lemma ObjectiveWithin(k: nat, r: Table, p: seq<real>)
    requires Pairwise(k, r) && Distribution(k, p) && k >= 2
    ensures 0.0 <= Objective(k, r, p) <= Trace(k, r)
  {
    forall u | 0 <= u < k ensures Within(Gradient(k, r, p)(u), Trace(k, r)) {
      GradientWithin(k, r, p, u);
    }
    DotWithin(k, p, Gradient(k, r, p), Trace(k, r));
    PositiveSemidefinite(k, r, At(p));
  }

  // ------------------------------------------------------------------ one step

  /** What the tolerance test looks at. */
  ghost function Gap(k: nat, r: Table, p: seq<real>, u: nat): real
  {
    Gradient(k, r, p)(u) - Objective(k, r, p)
  }

  /** Between p and p' the objective fell by a whole progress. */
  ghost predicate Fell(k: nat, r: Table, p: seq<real>, p': seq<real>)
    requires Pairwise(k, r) && k >= 2
  {
    Objective(k, r, p') <= Objective(k, r, p) - Progress(k, r)
  }

  lemma StepMovesGap(k: nat, r: Table, p: seq<real>, t: nat, u: nat, e: real)
    requires Pairwise(k, r) && Distribution(k, p) && k >= 2 && t < k && u < k && e <= 1.0
    requires 1.0 + Shift(k, r, p, t) > 0.0 && Within(Weight(Shift(k, r, p, t)), e)
    ensures Within(Gap(k, r, Coordinate(k, r, p, t), u) - Gap(k, r, p, u), 4.0 * Trace(k, r) * e)
  {
    hide Gradient;
    hide Objective;
    hide Coupling;
    hide Trace;
    hide Distribution;
    hide Pairwise;
    hide Coordinate;
    hide Square;
    GradientWithin(k, r, p, u);
    ObjectiveWithin(k, r, p);
    EntryBelowTrace(k, r, t, u);
    DiagonalBelowTrace(k, r, t);
    CoordinateGradient(k, r, p, t, u);
    CoordinateDescends(k, r, p, t);
    var d, m, p' := Shift(k, r, p, t), Trace(k, r), Coordinate(k, r, p, t);
    MixAsQuotient(Gradient(k, r, p)(u), Coupling(k, r)(t)(u), d);
    GradientMove(Gradient(k, r, p)(u), Coupling(k, r)(t)(u), Weight(d), e, m);
    ObjectiveMove(Objective(k, r, p) + Coupling(k, r)(t)(t), Weight(d), e, m);
    BothMove(Gradient(k, r, p)(u), Gradient(k, r, p')(u), Objective(k, r, p), Objective(k, r, p'), 2.0 * m * e);
    TwiceTwo(m, e);
  }

  lemma BothMove(g: real, g': real, o: real, o': real, b: real)
    requires Within(g' - g, b) && 0.0 <= o - o' <= b
    ensures Within((g' - o') - (g - o), 2.0 * b)
  {
  }

  lemma TwiceTwo(m: real, e: real)
    ensures 2.0 * (2.0 * m * e) == 4.0 * m * e
  {
  }

  /** A step of at least the short length pays a whole progress. */
  lemma LongStepFalls(k: nat, r: Table, p: seq<real>, t: nat)
    requires Pairwise(k, r) && Distribution(k, p) && k >= 2 && t < k
    requires 1.0 + Shift(k, r, p, t) > 0.0
    requires var f := Weight(Shift(k, r, p, t)); f >= ShortStep(k, r) || f <= -ShortStep(k, r)
    ensures Fell(k, r, p, Coordinate(k, r, p, t))
  {
    hide Gradient;
    hide Objective;
    hide Distribution;
    hide Pairwise;
    hide Coordinate;
    hide ShortStep;
    hide Coupling;
    hide Diagonal;
    hide LeastOf;
    CoordinateDescends(k, r, p, t);
    ObjectiveWithin(k, r, p);
    LeastDiagonal(k, r, t);
    var low := LeastOf(k, Diagonal(k, r));
    DropOfStep(Weight(Shift(k, r, p, t)), Objective(k, r, p) + Coupling(k, r)(t)(t), ShortStep(k, r), low);
  }

  /** A coordinate at least half as far outside the tolerance as the test allows pays when it moves. */
  lemma OutsideStepFalls(k: nat, r: Table, p: seq<real>, t: nat)
    requires Pairwise(k, r) && Distribution(k, p) && k >= 2 && t < k
    requires Gap(k, r, p, t) >= 0.5 * Tolerance(k) || Gap(k, r, p, t) <= -0.5 * Tolerance(k)
    ensures Fell(k, r, p, Coordinate(k, r, p, t))
  {
    hide Gradient;
    hide Objective;
    hide Coupling;
    hide Trace;
    hide Distribution;
    hide Pairwise;
    hide Coordinate;
    hide ShortStep;
    hide Tolerance;
    hide Progress;
    hide Fell;
    CoordinateDescends(k, r, p, t);
    ShiftProduct(k, r, p, t);
    DiagonalBelowTrace(k, r, t);
    StepForGap(Shift(k, r, p, t), Gap(k, r, p, t), Coupling(k, r)(t)(t), Trace(k, r), ShortStep(k, r),
               Tolerance(k));
    LongStepFalls(k, r, p, t);
  }

  // -------------------------------------------------------------------- a sweep

  lemma {:induction false} SweepOnward(k: nat, r: Table, p: seq<real>, s: nat, t: nat)
    requires Pairwise(k, r) && Distribution(k, p) && s <= t <= k
    ensures Objective(k, r, Sweep(k, r, p, t)) <= Objective(k, r, Sweep(k, r, p, s))
    decreases t
  {
    hide Gradient;
    hide Objective;
    hide Distribution;
    hide Pairwise;
    hide Coordinate;
    if s < t {
      SweepOnward(k, r, p, s, t - 1);
      CoordinateStep(k, r, Sweep(k, r, p, t - 1), t - 1);
    }
  }

  /** How far t short steps can carry a gap. */
  ghost function Reach(k: nat, r: Table, t: nat): real
    requires Pairwise(k, r) && k >= 2
  {
    4.0 * Trace(k, r) * ShortStep(k, r) * t as real
  }

  lemma OneMore(k: nat, r: Table, t: nat)
    requires Pairwise(k, r) && k >= 2
    ensures Reach(k, r, 0) == 0.0
    ensures Reach(k, r, t + 1) == Reach(k, r, t) + 4.0 * Trace(k, r) * ShortStep(k, r)
  {
    Distribute(4.0 * Trace(k, r) * ShortStep(k, r), t as real, 1.0);
  }

  lemma ReachesHalf(k: nat, r: Table, t: nat)
    requires Pairwise(k, r) && k >= 2 && t <= k
    ensures Reach(k, r, t) <= 0.5 * Tolerance(k)
  {
    hide Trace;
    DiagonalBelowTrace(k, r, 0);
    HalfLeft(Trace(k, r), ShortStep(k, r), t as real, k as real, Tolerance(k));
  }

  /** A step shorter than that adds its own reach. */
  lemma NearStep(k: nat, r: Table, p: seq<real>, x: seq<real>, t: nat, u: nat)
    requires Pairwise(k, r) && Distribution(k, x) && k >= 2 && t < k && u < k
    requires Within(Gap(k, r, x, u) - Gap(k, r, p, u), Reach(k, r, t))
    ensures Fell(k, r, x, Coordinate(k, r, x, t))
      || Within(Gap(k, r, Coordinate(k, r, x, t), u) - Gap(k, r, p, u), Reach(k, r, t + 1))
  {
    hide Gap;
    hide Distribution;
    hide Reach;
    hide Pairwise;
    hide Coordinate;
    hide Shift;
    hide ShortStep;
    hide Trace;
    hide Fell;
    ScalePositive(k, r, x, t);
    if Within(Weight(Shift(k, r, x, t)), ShortStep(k, r)) {
      StepMovesGap(k, r, x, t, u, ShortStep(k, r));
      OneMore(k, r, t);
    } else {
      LongStepFalls(k, r, x, t);
    }
  }

  lemma FellEarlier(k: nat, r: Table, p: seq<real>, x: seq<real>, y: seq<real>)
    requires Pairwise(k, r) && k >= 2
    requires Objective(k, r, y) <= Objective(k, r, x) <= Objective(k, r, p)
    ensures Fell(k, r, p, x) || Fell(k, r, x, y) ==> Fell(k, r, p, y)
  {
  }

  /** Up to coordinate t a sweep has either paid or moved every gap by t short steps at most. */
  lemma {:induction false} PaidOrNear(k: nat, r: Table, p: seq<real>, t: nat, u: nat)
    requires Pairwise(k, r) && Distribution(k, p) && k >= 2 && t <= k && u < k
    ensures Fell(k, r, p, Sweep(k, r, p, t))
      || Within(Gap(k, r, Sweep(k, r, p, t), u) - Gap(k, r, p, u), Reach(k, r, t))
    decreases t
  {
    hide Gap;
    hide Distribution;
    hide Reach;
    hide Pairwise;
    hide Coordinate;
    hide Objective;
    hide Fell;
    OneMore(k, r, 0);
    if t > 0 {
      var x := Sweep(k, r, p, t - 1);
      PaidOrNear(k, r, p, t - 1, u);
      SweepOnward(k, r, p, 0, t - 1);
      CoordinateStep(k, r, x, t - 1);
      FellEarlier(k, r, p, x, Coordinate(k, r, x, t - 1));
      if !Fell(k, r, p, x) {
        NearStep(k, r, p, x, t - 1, u);
      }
    }
  }

  /** A sweep that starts outside the tolerance lowers the objective by a whole progress. */
  lemma UnsettledSweepFalls(k: nat, r: Table, p: seq<real>)
    requires Pairwise(k, r) && Distribution(k, p) && k >= 2 && !Settled(k, r, p)
    ensures Fell(k, r, p, Sweep(k, r, p, k))
  {
    var u :| 0 <= u < k && !(-Tolerance(k) < Gradient(k, r, p)(u) - Objective(k, r, p) < Tolerance(k));
    OutsideSweepFalls(k, r, p, u);
  }

  lemma OutsideSweepFalls(k: nat, r: Table, p: seq<real>, u: nat)
    requires Pairwise(k, r) && Distribution(k, p) && k >= 2 && u < k
    requires Gap(k, r, p, u) >= Tolerance(k) || Gap(k, r, p, u) <= -Tolerance(k)
    ensures Fell(k, r, p, Sweep(k, r, p, k))
  {
    hide Gap;
    hide Distribution;
    hide Reach;
    hide Pairwise;
    hide Coordinate;
    hide Objective;
    hide Fell;
    hide Gradient;
    hide Tolerance;
    var x, y := Sweep(k, r, p, u), Sweep(k, r, p, u + 1);
    PaidOrNear(k, r, p, u, u);
    if !Fell(k, r, p, x) {
      ReachesHalf(k, r, u);
      OutsideStepFalls(k, r, x, u);
    }
    SweepOnward(k, r, p, 0, u);
    SweepOnward(k, r, p, u, u + 1);
    SweepOnward(k, r, p, u + 1, k);
    FellEarlier(k, r, p, x, y);
    FellEarlier(k, r, p, y, Sweep(k, r, p, k));
  }

  lemma HalfLeft(m: real, e: real, u: real, n: real, x: real)
    requires m > 0.0 && e > 0.0 && u <= n && 8.0 * m * e * n <= x
    ensures 4.0 * m * e * u <= 0.5 * x
  {
    ProductSign(m, e);
    OrderedProducts(m * e, u, n);
    assert 4.0 * m * e * u == 4.0 * (u * (m * e));
    assert 8.0 * m * e * n == 8.0 * ((m * e) * n);
  }

  // -------------------------------------------------------------------- the run

  /** A run that has not settled has paid for every one of its sweeps. */
  lemma {:induction false} UnsettledRunPays(k: nat, r: Table, p: seq<real>, iters: nat)
    requires Pairwise(k, r) && Distribution(k, p) && k >= 2
    requires !Settled(k, r, Solve(k, r, p, iters))
    ensures Objective(k, r, Solve(k, r, p, iters)) <= Objective(k, r, p) - iters as real * Progress(k, r)
    decreases iters
  {
    hide Gradient;
    hide Objective;
    hide Distribution;
    hide Pairwise;
    hide Coordinate;
    hide Sweep;
    hide ShortStep;
    hide Tolerance;
    hide Progress;
    hide Settled;
    if iters > 0 {
      UnsettledSweepFalls(k, r, p);
      UnsettledRunPays(k, r, Sweep(k, r, p, k), iters - 1);
      Distribute(Progress(k, r), (iters - 1) as real, 1.0);
    }
  }

  /**
   From any start the solver stops by its own test once it is allowed more sweeps than the objective holds
   progresses, and then it ends within 0.01 / k of the least value on the simplex.
   */
  lemma SettlesWithin(k: nat, r: Table, p: seq<real>, iters: nat)
    requires Pairwise(k, r) && Distribution(k, p) && k >= 2
    requires iters as real * Progress(k, r) > Objective(k, r, p)
    ensures Settled(k, r, Solve(k, r, p, iters))
    ensures forall q :: InSimplex(k, q) ==>
      Objective(k, r, Solve(k, r, p, iters)) - Objective(k, r, q) < 0.01 / k as real
  {
    if !Settled(k, r, Solve(k, r, p, iters)) {
      UnsettledRunPays(k, r, p, iters);
      ObjectiveWithin(k, r, Solve(k, r, p, iters));
      assert false;
    }
    SolveEnds(k, r, p, iters);
  }

  /** For every table one number of sweeps is enough from every start. */
  lemma SettlesFromEverywhere(k: nat, r: Table)
    requires Pairwise(k, r) && k > 0
    ensures exists n: nat :: AlwaysSettles(k, r, n)
  {
    hide Gradient;
    hide Objective;
    hide Distribution;
    hide Coordinate;
    hide Sweep;
    hide ShortStep;
    hide Tolerance;
    hide Progress;
    hide Trace;
    if k == 1 {
      forall p | Distribution(k, p) ensures Settled(k, r, Solve(k, r, p, 0)) {
        SingleClass(r, p);
      }
      assert AlwaysSettles(k, r, 0);
    } else {
      DiagonalBelowTrace(k, r, 0);
      var n := EnoughTimes(Trace(k, r), Progress(k, r));
      forall p | Distribution(k, p) ensures Settled(k, r, Solve(k, r, p, n)) {
        ObjectiveWithin(k, r, p);
        SettlesWithin(k, r, p, n);
      }
      assert AlwaysSettles(k, r, n);
    }
  }

  ghost predicate AlwaysSettles(k: nat, r: Table, n: nat)
    requires Pairwise(k, r) && k > 0
  {
    forall p :: Distribution(k, p) ==> Settled(k, r, Solve(k, r, p, n))
  }

  ghost function EnoughTimes(a: real, c: real): (n: nat)
    requires a > 0.0 && c > 0.0
    ensures n as real * c > a
  {
    QuotientTimes(a, c);
    var n := (a / c).Floor + 1;
    ProductSign(n as real - a / c, c);
    Distribute(c, n as real, -(a / c));
    n
  }
}
