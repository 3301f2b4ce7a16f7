/**
 Wu-Lin-Weng pairwise coupling as tools/gaia_predict.py computes it, over exact reals: a cyclic
 coordinate descent on p'Qp that keeps the products Qp and p'Qp up to date instead of recomputing them.

 `Solve` is the same descent with every product recomputed; the method refines it. Everything else is
 proved about `Solve`.
 */
module PairwiseCoupling {
  import opened RealArithmetic
  import opened Sums

  type Table = seq<seq<real>>

  /** A k by k table of pairwise probabilities whose off-diagonal entries are positive. */
  predicate Pairwise(k: nat, r: Table)
  {
    && |r| == k
    && (forall i :: 0 <= i < k ==> |r[i]| == k)
    && (forall i, j :: 0 <= i < k && 0 <= j < k && i != j ==> r[i][j] > 0.0)
  }

  ghost function Entry(r: Table, i: int, j: int): real
  {
    if 0 <= i < |r| && 0 <= j < |r[i]| then r[i][j] else 0.0
  }

  /** The terms of the diagonal entry Q[t][t]. */
  ghost function Squares(r: Table, t: int): Vec
  {
    j => if j == t then 0.0 else Square(Entry(r, j, t))
  }

  /** The matrix Q of the quadratic form being minimised. */
  ghost function Coupling(k: nat, r: Table): Matrix
  {
    t => j => if j == t then Sum(k, Squares(r, t)) else -(Entry(r, j, t) * Entry(r, t, j))
  }

  /** A strictly positive probability distribution over k classes. */
  ghost predicate Distribution(k: nat, p: seq<real>)
  {
    |p| == k && (forall t :: 0 <= t < k ==> p[t] > 0.0) && Sum(k, At(p)) == 1.0
  }

  ghost function Gradient(k: nat, r: Table, p: seq<real>): Vec
  {
    Product(k, Coupling(k, r), At(p))
  }

  ghost function Objective(k: nat, r: Table, p: seq<real>): real
  {
    Form(k, Coupling(k, r), At(p), At(p))
  }

  ghost function Unit(t: int): Vec
  {
    i => if i == t then 1.0 else 0.0
  }

  // ------------------------------------------------------------------ the matrix

  lemma CouplingSymmetric(k: nat, r: Table)
    ensures Symmetric(k, Coupling(k, r))
  {
  }

  /** The shares r[j][t] * x[t] whose differences the quadratic form adds up. */
  ghost function Shares(r: Table, x: Vec): Matrix
  {
    t => j => if j == t then 0.0 else Entry(r, j, t) * x(t)
  }

  ghost function OnDiagonal(t: int, c: real): Vec
  {
    j => if j == t then c else 0.0
  }

  lemma ProductRegroups(a: real, b: real, x: real, y: real)
    ensures x * (-(a * b) * y) == -((a * x) * (b * y))
    ensures x * (a * x) == (x * x) * a
    ensures (a * x) * (a * x) == (x * x) * (a * a)
  {
  }

  lemma TermAt(k: nat, r: Table, x: Vec, t: int, j: int)
    ensures Terms(Coupling(k, r), x, x)(t)(j)
         == OnDiagonal(t, (x(t) * x(t)) * Coupling(k, r)(t)(t))(j)
            - Times(Shares(r, x)(t), Transposed(Shares(r, x))(t))(j)
  {
    if j == t {
      ProductRegroups(Coupling(k, r)(t)(t), 0.0, x(t), 0.0);
      assert Times(Shares(r, x)(t), Transposed(Shares(r, x))(t))(t) == 0.0 * 0.0;
    } else {
      ProductRegroups(Entry(r, j, t), Entry(r, t, j), x(t), x(j));
    }
  }

  lemma ShareSquareAt(r: Table, x: Vec, t: int, j: int)
    ensures Times(Shares(r, x)(t), Shares(r, x)(t))(j) == (x(t) * x(t)) * Squares(r, t)(j)
  {
    if j == t {
      assert Times(Shares(r, x)(t), Shares(r, x)(t))(j) == 0.0 * 0.0;
      assert (x(t) * x(t)) * 0.0 == 0.0;
    } else {
      ProductRegroups(Entry(r, j, t), 0.0, x(t), 0.0);
    }
  }

  lemma ShareSquares(k: nat, r: Table, x: Vec, t: int)
    ensures Dot(k, Shares(r, x)(t), Shares(r, x)(t)) == (x(t) * x(t)) * Coupling(k, r)(t)(t)
  {
    hide Shares;
    hide Times;
    hide Squares;
    hide Sum;
    var c := x(t) * x(t);
    var squares := Times(Shares(r, x)(t), Shares(r, x)(t));
    forall j | 0 <= j < k ensures squares(j) == c * Squares(r, t)(j) {
      ShareSquareAt(r, x, t, j);
    }
    SumScaled(k, c, Squares(r, t), squares);
  }

  lemma FormRow(k: nat, r: Table, x: Vec, t: int)
    requires 0 <= t < k
    ensures Sum(k, Terms(Coupling(k, r), x, x)(t))
         == Dot(k, Shares(r, x)(t), Shares(r, x)(t)) - Dot(k, Shares(r, x)(t), Transposed(Shares(r, x))(t))
  {
    hide Coupling;
    hide Shares;
    hide Terms;
    hide Transposed;
    hide Times;
    hide Sum;
    var terms, cross := Terms(Coupling(k, r), x, x)(t), Times(Shares(r, x)(t), Transposed(Shares(r, x))(t));
    ShareSquares(k, r, x, t);
    var diagonal := OnDiagonal(t, (x(t) * x(t)) * Coupling(k, r)(t)(t));
    forall j | 0 <= j < k ensures terms(j) == diagonal(j) - cross(j) {
      TermAt(k, r, x, t, j);
    }
    SumLinear(k, 1.0, diagonal, -1.0, cross, terms);
    SumSingle(k, t, diagonal);
  }

  /** Twice x'Qx is the sum of the squared differences of the shares of every pair of classes. */
  lemma FormIsSumOfSquares(k: nat, r: Table, x: Vec)
    ensures 2.0 * Form(k, Coupling(k, r), x, x) == Sum(k, RowDots(k, Gaps(Shares(r, x)), Gaps(Shares(r, x))))
  {
    var a := Shares(r, x);
    var own, cross, rows := RowDots(k, a, a), RowDots(k, a, Transposed(a)), RowSums(k, Terms(Coupling(k, r), x, x));
    FormAsTerms(k, Coupling(k, r), x, x);
    forall t | 0 <= t < k ensures rows(t) == own(t) - cross(t) {
      FormRow(k, r, x, t);
    }
    SumLinear(k, 1.0, own, -1.0, cross, rows);
    SumOfGaps(k, a);
  }

  /** Q is positive semidefinite, whatever the table holds. */
  lemma PositiveSemidefinite(k: nat, r: Table, x: Vec)
    ensures Form(k, Coupling(k, r), x, x) >= 0.0
  {
    var zero: Vec := i => 0.0;
    var gaps := Gaps(Shares(r, x));
    SumConstant(k, 0.0, zero);
    FormIsSumOfSquares(k, r, x);
    forall t | 0 <= t < k ensures RowDots(k, gaps, gaps)(t) >= zero(t) {
      DotSquareNonnegative(k, gaps(t));
    }
    SumBetween(k, zero, RowDots(k, gaps, gaps));
  }

  lemma DiagonalPositive(k: nat, r: Table, t: int)
    requires Pairwise(k, r) && 0 <= t < k
    ensures Coupling(k, r)(t)(t) > 0.0 <==> k >= 2
    ensures Coupling(k, r)(t)(t) >= 0.0
  {
    if k == 1 {
      SumSingle(1, 0, Squares(r, t));
    } else {
      var u := if t == 0 then 1 else 0;
      var one: Vec := j => if j == u then Squares(r, t)(u) else 0.0;
      SumSingle(k, u, one);
      forall j | 0 <= j < k ensures one(j) <= Squares(r, t)(j) {
        SquareSign(Entry(r, j, t));
      }
      SumBetween(k, one, Squares(r, t));
      assert r[u][t] > 0.0;
      SquareSign(r[u][t]);
    }
  }

  // ---------------------------------------------------------------- one coordinate

  /** How far the solver moves coordinate t before it renormalises. */
  ghost function Shift(k: nat, r: Table, p: seq<real>, t: nat): real
    requires Pairwise(k, r) && t < k && k >= 2
  {
    DiagonalPositive(k, r, t);
    (-Gradient(k, r, p)(t) + Objective(k, r, p)) / Coupling(k, r)(t)(t)
  }

  lemma UnitSum(k: nat, t: int)
    requires 0 <= t < k
    ensures Sum(k, Unit(t)) == 1.0
  {
    SumSingle(k, t, Unit(t));
  }

  lemma UnitProduct(k: nat, m: Matrix, s: int, t: int)
    requires 0 <= t < k
    ensures Dot(k, m(s), Unit(t)) == m(s)(t) == Product(k, m, Unit(t))(s)
  {
    SumSingle(k, t, Times(m(s), Unit(t)));
  }

  lemma UnitForm(k: nat, m: Matrix, t: int, v: Vec)
    requires 0 <= t < k
    ensures Form(k, m, Unit(t), v) == Product(k, m, v)(t)
  {
    SumSingle(k, t, Times(Unit(t), Product(k, m, v)));
  }

  lemma PullAt(k: nat, r: Table, p: seq<real>, t: nat, j: nat)
    requires Pairwise(k, r) && Distribution(k, p) && t < k && j < k && j != t
    ensures Times(Coupling(k, r)(t), At(p))(j) < 0.0
  {
    PullNegative(r[j][t], r[t][j], p[j]);
  }

  lemma PullNegative(a: real, b: real, x: real)
    requires a > 0.0 && b > 0.0 && x > 0.0
    ensures -(a * b) * x < 0.0
  {
    assert a * b > 0.0;
  }

  /** Every other class pulls its share into the coordinate being moved. */
  lemma OwnPartExceedsGradient(k: nat, r: Table, p: seq<real>, t: nat)
    requires Pairwise(k, r) && Distribution(k, p) && t < k && k >= 2
    ensures Gradient(k, r, p)(t) < Coupling(k, r)(t)(t) * p[t]
  {
    var terms := Times(Coupling(k, r)(t), At(p));
    var u := if t == 0 then 1 else 0;
    PullAt(k, r, p, t, u);
    forall j | 0 <= j < k && j != t ensures terms(j) <= 0.0 {
      PullAt(k, r, p, t, j);
    }
    SumBelowTerm(k, terms, t, u);
  }

  lemma MovedPositive(k: nat, r: Table, p: seq<real>, t: nat)
    requires Pairwise(k, r) && Distribution(k, p) && t < k && k >= 2
    ensures p[t] + Shift(k, r, p, t) > 0.0
  {
    DiagonalPositive(k, r, t);
    OwnPartExceedsGradient(k, r, p, t);
    PositiveSemidefinite(k, r, At(p));
    RiseQuotient(Gradient(k, r, p)(t), Objective(k, r, p), Coupling(k, r)(t)(t), p[t]);
  }

  lemma {:induction false} SumPositive(n: nat, f: Vec)
    requires n > 0 && forall i :: 0 <= i < n ==> f(i) > 0.0
    ensures Sum(n, f) > 0.0
  {
    if n == 1 {
      assert Sum(0, f) == 0.0;
    } else {
      SumPositive(n - 1, f);
    }
  }

  /** 1 + diff, the number the solver divides by, is positive. */
  lemma ScalePositive(k: nat, r: Table, p: seq<real>, t: nat)
    requires Pairwise(k, r) && Distribution(k, p) && t < k && k >= 2
    ensures 1.0 + Shift(k, r, p, t) > 0.0
  {
    var d := Shift(k, r, p, t);
    var step := OnDiagonal(t, d);
    var moved: Vec := i => At(p)(i) + step(i);
    MovedPositive(k, r, p, t);
    SumSingle(k, t, step);
    SumLinear(k, 1.0, At(p), 1.0, step, moved);
    SumPositive(k, moved);
  }

  /** p with coordinate t moved by d, divided by its new total. */
  ghost predicate MovedBy(p: seq<real>, t: nat, d: real, p': seq<real>)
  {
    && 1.0 + d > 0.0 && |p'| == |p|
    && forall j :: 0 <= j < |p| ==> p'[j] == (if j == t then p[j] + d else p[j]) / (1.0 + d)
  }

  /** One inner update of the solver, with every product recomputed from p. */
  ghost function Coordinate(k: nat, r: Table, p: seq<real>, t: nat): (p': seq<real>)
    requires Pairwise(k, r) && Distribution(k, p) && t < k
    ensures Distribution(k, p')
    ensures k >= 2 ==> MovedBy(p, t, Shift(k, r, p, t), p')
  {
    DiagonalPositive(k, r, t);
    if Coupling(k, r)(t)(t) <= 0.0 then
      p
    else
      ScalePositive(k, r, p, t);
      var d := Shift(k, r, p, t);
      var p' := seq(k, j requires 0 <= j < k => (if j == t then p[j] + d else p[j]) / (1.0 + d));
      CoordinateSum(k, r, p, t, p');
      p'
  }

  lemma MixAt(p: seq<real>, t: nat, d: real, p': seq<real>, i: int)
    requires MovedBy(p, t, d, p') && 0 <= i < |p|
    ensures At(p')(i) == (1.0 - Weight(d)) * At(p)(i) + Weight(d) * Unit(t)(i)
  {
    MixOfOne(p[i], d);
    assert Weight(d) * 0.0 == 0.0;
  }

  /** A move and a division by the new total keep the total at 1. */
  lemma MixSum(k: nat, p: seq<real>, t: nat, d: real, p': seq<real>)
    requires |p| == k && t < k && MovedBy(p, t, d, p') && Sum(k, At(p)) == 1.0
    ensures Sum(k, At(p')) == 1.0
  {
    var f := Weight(d);
    forall i | 0 <= i < k ensures At(p')(i) == (1.0 - f) * At(p)(i) + f * Unit(t)(i) {
      MixAt(p, t, d, p', i);
    }
    UnitSum(k, t);
    SumLinear(k, 1.0 - f, At(p), f, Unit(t), At(p'));
  }

  lemma CoordinateSum(k: nat, r: Table, p: seq<real>, t: nat, p': seq<real>)
    requires Pairwise(k, r) && Distribution(k, p) && t < k && k >= 2
    requires MovedBy(p, t, Shift(k, r, p, t), p')
    ensures Distribution(k, p')
  {
    var d := Shift(k, r, p, t);
    MovedPositive(k, r, p, t);
    MixSum(k, p, t, d, p');
    forall i | 0 <= i < k ensures p'[i] > 0.0 {
      QuotientTimes(if i == t then p[i] + d else p[i], 1.0 + d);
    }
  }

  /** The products of a vector mixed with a unit vector. */
  lemma MixProducts(k: nat, q: Matrix, x: Vec, t: nat, f: real, x': Vec)
    requires t < k && Symmetric(k, q)
    requires forall i :: 0 <= i < k ==> x'(i) == (1.0 - f) * x(i) + f * Unit(t)(i)
    ensures forall s :: 0 <= s < k ==>
      Product(k, q, x')(s) == (1.0 - f) * Product(k, q, x)(s) + f * q(t)(s)
    ensures Form(k, q, x', x')
      == (1.0 - f) * (1.0 - f) * Form(k, q, x, x) + 2.0 * (1.0 - f) * f * Product(k, q, x)(t) + f * f * q(t)(t)
  {
    hide Form;
    hide Product;
    hide Symmetric;
    forall s | 0 <= s < k
      ensures Product(k, q, x')(s) == (1.0 - f) * Product(k, q, x)(s) + f * q(t)(s)
    {
      MixProductAt(k, q, x, t, f, x', s);
    }
    MixForm(k, q, x, t, 1.0 - f, f, x');
  }

  lemma MixProductAt(k: nat, q: Matrix, x: Vec, t: nat, f: real, x': Vec, s: nat)
    requires t < k && s < k && Symmetric(k, q)
    requires forall i :: 0 <= i < k ==> x'(i) == (1.0 - f) * x(i) + f * Unit(t)(i)
    ensures Product(k, q, x')(s) == (1.0 - f) * Product(k, q, x)(s) + f * q(t)(s)
  {
    hide Unit;
    DotLinear(k, q(s), 1.0 - f, x, f, Unit(t), x');
    UnitProduct(k, q, s, t);
    assert q(s)(t) == q(t)(s);
  }

  lemma MixForm(k: nat, q: Matrix, x: Vec, t: nat, e: real, f: real, x': Vec)
    requires t < k && Symmetric(k, q)
    requires forall i :: 0 <= i < k ==> x'(i) == e * x(i) + f * Unit(t)(i)
    ensures Form(k, q, x', x')
      == e * e * Form(k, q, x, x) + 2.0 * e * f * Product(k, q, x)(t) + f * f * q(t)(t)
  {
    FormOfSum(k, q, e, x, f, Unit(t), x');
    assert Form(k, q, x, Unit(t)) == Product(k, q, x)(t) by {
      FormSymmetric(k, q, x, Unit(t));
      UnitForm(k, q, t, x);
    }
    assert Form(k, q, Unit(t), Unit(t)) == q(t)(t) by {
      UnitForm(k, q, t, Unit(t));
      UnitProduct(k, q, t, t);
    }
  }

  lemma MovedGradient(k: nat, q: Matrix, p: seq<real>, t: nat, d: real, p': seq<real>, s: nat)
    requires |p| == k && t < k && Symmetric(k, q) && MovedBy(p, t, d, p') && s < k
    ensures Product(k, q, At(p'))(s) == MovedLinear(Product(k, q, At(p))(s), q(t)(s), d)
  {
    forall i | 0 <= i < k ensures At(p')(i) == (1.0 - Weight(d)) * At(p)(i) + Weight(d) * Unit(t)(i) {
      MixAt(p, t, d, p', i);
    }
    MixProducts(k, q, At(p), t, Weight(d), At(p'));
    MixAsQuotient(Product(k, q, At(p))(s), q(t)(s), d);
  }

  lemma MovedForm(k: nat, q: Matrix, p: seq<real>, t: nat, d: real, p': seq<real>)
    requires |p| == k && t < k && Symmetric(k, q) && MovedBy(p, t, d, p')
    ensures var f := Weight(d);
      Form(k, q, At(p'), At(p'))
      == (1.0 - f) * (1.0 - f) * Form(k, q, At(p), At(p))
         + 2.0 * (1.0 - f) * f * Product(k, q, At(p))(t) + f * f * q(t)(t)
  {
    forall i | 0 <= i < k ensures At(p')(i) == (1.0 - Weight(d)) * At(p)(i) + Weight(d) * Unit(t)(i) {
      MixAt(p, t, d, p', i);
    }
    MixProducts(k, q, At(p), t, Weight(d), At(p'));
  }

  lemma MovedObjective(k: nat, q: Matrix, p: seq<real>, t: nat, d: real, p': seq<real>)
    requires |p| == k && t < k && Symmetric(k, q) && MovedBy(p, t, d, p')
    ensures Form(k, q, At(p'), At(p'))
      == MovedQuadratic(Form(k, q, At(p), At(p)), Product(k, q, At(p))(t), q(t)(t), d)
  {
    MovedForm(k, q, p, t, d, p');
    MixedQuadratic(Form(k, q, At(p), At(p)), Product(k, q, At(p))(t), q(t)(t), d);
  }

  /**
   The incremental formulas the solver uses for Qp and p'Qp give what recomputing them from the new p
   gives.
   */
  lemma CoordinateGradient(k: nat, r: Table, p: seq<real>, t: nat, s: nat)
    requires Pairwise(k, r) && Distribution(k, p) && t < k && k >= 2 && s < k
    ensures 1.0 + Shift(k, r, p, t) > 0.0
    ensures Gradient(k, r, Coordinate(k, r, p, t))(s)
      == MovedLinear(Gradient(k, r, p)(s), Coupling(k, r)(t)(s), Shift(k, r, p, t))
  {
    CouplingSymmetric(k, r);
    MovedGradient(k, Coupling(k, r), p, t, Shift(k, r, p, t), Coordinate(k, r, p, t), s);
  }

  lemma CoordinateObjective(k: nat, r: Table, p: seq<real>, t: nat)
    requires Pairwise(k, r) && Distribution(k, p) && t < k && k >= 2
    ensures 1.0 + Shift(k, r, p, t) > 0.0
    ensures Objective(k, r, Coordinate(k, r, p, t))
      == MovedQuadratic(Objective(k, r, p), Gradient(k, r, p)(t), Coupling(k, r)(t)(t), Shift(k, r, p, t))
  {
    CouplingSymmetric(k, r);
    MovedObjective(k, Coupling(k, r), p, t, Shift(k, r, p, t), Coordinate(k, r, p, t));
  }

  lemma ShiftProduct(k: nat, r: Table, p: seq<real>, t: nat)
    requires Pairwise(k, r) && Distribution(k, p) && t < k && k >= 2
    ensures Shift(k, r, p, t) * Coupling(k, r)(t)(t) == Objective(k, r, p) - Gradient(k, r, p)(t)
    ensures Shift(k, r, p, t) == 0.0 <==> Gradient(k, r, p)(t) == Objective(k, r, p)
  {
    DiagonalPositive(k, r, t);
    QuotientTimes(-Gradient(k, r, p)(t) + Objective(k, r, p), Coupling(k, r)(t)(t));
  }

  /**
   Each coordinate step lowers the objective by exactly (diff / (1 + diff))^2 * (p'Qp + Q[t][t]): by
   nothing when diff is zero, and strictly otherwise.
   */
  lemma CoordinateDescends(k: nat, r: Table, p: seq<real>, t: nat)
    requires Pairwise(k, r) && Distribution(k, p) && t < k && k >= 2
    ensures 1.0 + Shift(k, r, p, t) > 0.0
    ensures var f := Weight(Shift(k, r, p, t));
      Objective(k, r, Coordinate(k, r, p, t))
      == Objective(k, r, p) - Square(f) * (Objective(k, r, p) + Coupling(k, r)(t)(t))
    ensures Objective(k, r, Coordinate(k, r, p, t)) <= Objective(k, r, p)
    ensures Objective(k, r, Coordinate(k, r, p, t)) == Objective(k, r, p) <==> Shift(k, r, p, t) == 0.0
  {
    hide Pairwise;
    hide Coupling;
    hide Symmetric;
    hide Shift;
    hide Coordinate;
    hide Square;
    ShiftProduct(k, r, p, t);
    MixedObjective(k, r, p, t);
    hide Distribution;
    DiagonalPositive(k, r, t);
    PositiveSemidefinite(k, r, At(p));
    hide Gradient;
    hide Objective;
    hide MovedBy;
    Descent(Objective(k, r, p), Gradient(k, r, p)(t), Coupling(k, r)(t)(t), Shift(k, r, p, t),
            Objective(k, r, Coordinate(k, r, p, t)));
  }

  lemma MixedObjective(k: nat, r: Table, p: seq<real>, t: nat)
    requires Pairwise(k, r) && Distribution(k, p) && t < k && k >= 2
    ensures 1.0 + Shift(k, r, p, t) > 0.0
    ensures var f := Weight(Shift(k, r, p, t));
      Objective(k, r, Coordinate(k, r, p, t))
      == (1.0 - f) * (1.0 - f) * Objective(k, r, p) + 2.0 * (1.0 - f) * f * Gradient(k, r, p)(t)
         + f * f * Coupling(k, r)(t)(t)
  {
    hide Pairwise;
    hide Coupling;
    hide Symmetric;
    hide Shift;
    hide Coordinate;
    CouplingSymmetric(k, r);
    MovedForm(k, Coupling(k, r), p, t, Shift(k, r, p, t), Coordinate(k, r, p, t));
  }

  // ---------------------------------------------------------------- sweeps

  /** p after the first t coordinates of a sweep. */
  ghost function Sweep(k: nat, r: Table, p: seq<real>, t: nat): (p': seq<real>)
    requires Pairwise(k, r) && Distribution(k, p) && t <= k
    ensures Distribution(k, p')
  {
    if t == 0 then p else Coordinate(k, r, Sweep(k, r, p, t - 1), t - 1)
  }

  function Tolerance(k: nat): (e: real)
    requires k > 0
    ensures e > 0.0 && e * k as real == 0.005
  {
    QuotientTimes(0.005, k as real);
    0.005 / k as real
  }

  /** The solver's stopping test. */
  ghost predicate Settled(k: nat, r: Table, p: seq<real>)
    requires k > 0
  {
    forall t :: 0 <= t < k ==>
      -Tolerance(k) < Gradient(k, r, p)(t) - Objective(k, r, p) < Tolerance(k)
  }

  /** Every component of Qp equals p'Qp: no coordinate would move. */
  ghost predicate Stationary(k: nat, r: Table, p: seq<real>)
  {
    forall t :: 0 <= t < k ==> Gradient(k, r, p)(t) == Objective(k, r, p)
  }

  /** The solver with every product recomputed at every step. */
  ghost function Solve(k: nat, r: Table, p: seq<real>, iters: nat): (p': seq<real>)
    requires Pairwise(k, r) && Distribution(k, p) && k > 0
    ensures Distribution(k, p')
    decreases iters
  {
    if iters == 0 || Settled(k, r, p) then p else Solve(k, r, Sweep(k, r, p, k), iters - 1)
  }

  lemma CoordinateStep(k: nat, r: Table, p: seq<real>, t: nat)
    requires Pairwise(k, r) && Distribution(k, p) && t < k
    ensures Objective(k, r, Coordinate(k, r, p, t)) <= Objective(k, r, p)
    ensures Objective(k, r, Coordinate(k, r, p, t)) == Objective(k, r, p)
      <==> Gradient(k, r, p)(t) == Objective(k, r, p)
    ensures Objective(k, r, Coordinate(k, r, p, t)) == Objective(k, r, p) ==> Coordinate(k, r, p, t) == p
  {
    if k == 1 {
      DiagonalPositive(k, r, 0);
      SingleClass(r, p);
    } else {
      CoordinateDescends(k, r, p, t);
      ShiftProduct(k, r, p, t);
      if Shift(k, r, p, t) == 0.0 {
        UnmovedBy(p, t, Shift(k, r, p, t), Coordinate(k, r, p, t));
      }
    }
  }

  lemma UnmovedBy(p: seq<real>, t: nat, d: real, p': seq<real>)
    requires MovedBy(p, t, d, p') && d == 0.0
    ensures p' == p
  {
  }

  lemma {:induction false} SweepPrefix(k: nat, r: Table, p: seq<real>, t: nat)
    requires Pairwise(k, r) && Distribution(k, p) && t <= k
    ensures Objective(k, r, Sweep(k, r, p, t)) <= Objective(k, r, p)
    ensures Objective(k, r, Sweep(k, r, p, t)) == Objective(k, r, p)
      <==> forall s :: 0 <= s < t ==> Gradient(k, r, p)(s) == Objective(k, r, p)
    ensures Objective(k, r, Sweep(k, r, p, t)) == Objective(k, r, p) ==> Sweep(k, r, p, t) == p
  {
    hide Gradient;
    hide Objective;
    hide Distribution;
    hide Pairwise;
    hide Coordinate;
    if t > 0 {
      SweepPrefix(k, r, p, t - 1);
      CoordinateStep(k, r, Sweep(k, r, p, t - 1), t - 1);
    }
  }

  lemma SingleClass(r: Table, p: seq<real>)
    requires Pairwise(1, r) && Distribution(1, p)
    ensures Gradient(1, r, p)(0) == 0.0 == Objective(1, r, p)
  {
    SumSingle(1, 0, Squares(r, 0));
    assert Coupling(1, r)(0)(0) == 0.0;
    SumSingle(1, 0, Times(Coupling(1, r)(0), At(p)));
    SumSingle(1, 0, Times(At(p), Gradient(1, r, p)));
  }

  /** A sweep lowers the objective, strictly unless p is stationary, and then it leaves p as it is. */
  lemma SweepDescends(k: nat, r: Table, p: seq<real>)
    requires Pairwise(k, r) && Distribution(k, p)
    ensures Objective(k, r, Sweep(k, r, p, k)) <= Objective(k, r, p)
    ensures Objective(k, r, Sweep(k, r, p, k)) == Objective(k, r, p) <==> Stationary(k, r, p)
    ensures Sweep(k, r, p, k) == p <==> Stationary(k, r, p)
  {
    SweepPrefix(k, r, p, k);
  }

  /** A point of the closed simplex. */
  ghost predicate InSimplex(k: nat, q: seq<real>)
  {
    |q| == k && (forall t :: 0 <= t < k ==> q[t] >= 0.0) && Sum(k, At(q)) == 1.0
  }

  lemma GapFromGradient(k: nat, r: Table, p: seq<real>, q: seq<real>)
    requires |p| == |q| == k
    ensures Objective(k, r, q) >= 2.0 * Dot(k, At(q), Gradient(k, r, p)) - Objective(k, r, p)
  {
    CouplingSymmetric(k, r);
    PositiveSemidefinite(k, r, Minus(At(q), At(p)));
    FormOfSum(k, Coupling(k, r), 1.0, At(q), -1.0, At(p), Minus(At(q), At(p)));
  }

  lemma WeightedBetween(k: nat, q: seq<real>, g: Vec, low: real)
    requires InSimplex(k, q)
    requires forall t :: 0 <= t < k ==> low <= g(t)
    ensures low <= Dot(k, At(q), g)
  {
    var floor: Vec := t => low * At(q)(t);
    SumScaled(k, low, At(q), floor);
    forall t | 0 <= t < k ensures floor(t) <= Times(At(q), g)(t) {
      OrderedProducts(q[t], low, g(t));
    }
    SumBetween(k, floor, Times(At(q), g));
  }

  /**
   When the solver stops by its tolerance test, p'Qp exceeds q'Qq by less than 0.01 / k for every q on
   the simplex.
   */
  lemma SettledIsNearOptimal(k: nat, r: Table, p: seq<real>, q: seq<real>)
    requires k > 0 && |p| == k && Settled(k, r, p) && InSimplex(k, q)
    ensures Objective(k, r, p) - Objective(k, r, q) < 0.01 / k as real
  {
    var g, o, e := Gradient(k, r, p), Objective(k, r, p), Tolerance(k);
    GapFromGradient(k, r, p, q);
    var low := LeastOf(k, g);
    WeightedBetween(k, q, g, low);
    assert low > o - e;
    HalfTolerance(k as real);
  }

  lemma HalfTolerance(n: real)
    requires n > 0.0
    ensures 2.0 * (0.005 / n) == 0.01 / n
  {
  }

  ghost function LeastOf(n: nat, g: Vec): (low: real)
    requires n > 0
    ensures forall t :: 0 <= t < n ==> low <= g(t)
    ensures exists t :: 0 <= t < n && g(t) == low
  {
    if n == 1 then
      assert g(0) == g(0);
      g(0)
    else
      var rest := LeastOf(n - 1, g);
      if g(n - 1) < rest then g(n - 1) else rest
  }

  /** The distributions a sweep leaves alone are exactly the minimisers of the objective. */
  lemma StationaryIffOptimal(k: nat, r: Table, p: seq<real>)
    requires k > 0 && Pairwise(k, r) && Distribution(k, p)
    ensures Stationary(k, r, p) <==> forall q :: InSimplex(k, q) ==> Objective(k, r, p) <= Objective(k, r, q)
  {
    if Stationary(k, r, p) {
      forall q | InSimplex(k, q) ensures Objective(k, r, p) <= Objective(k, r, q) {
        GapFromGradient(k, r, p, q);
        WeightedBetween(k, q, Gradient(k, r, p), Objective(k, r, p));
      }
    } else {
      SweepDescends(k, r, p);
      assert InSimplex(k, Sweep(k, r, p, k));
    }
  }

  /** p after n whole sweeps. */
  ghost function Sweeps(k: nat, r: Table, p: seq<real>, n: nat): (p': seq<real>)
    requires Pairwise(k, r) && Distribution(k, p)
    ensures Distribution(k, p')
    decreases n
  {
    if n == 0 then p else Sweeps(k, r, Sweep(k, r, p, k), n - 1)
  }

  /**
   A run ends by the tolerance test, close to the optimum, or after all its sweeps; and it never ends
   above where it began.
   */
  lemma {:induction false} SolveEnds(k: nat, r: Table, p: seq<real>, iters: nat)
    requires Pairwise(k, r) && Distribution(k, p) && k > 0
    ensures Objective(k, r, Solve(k, r, p, iters)) <= Objective(k, r, p)
    ensures Settled(k, r, Solve(k, r, p, iters)) || Solve(k, r, p, iters) == Sweeps(k, r, p, iters)
    ensures Settled(k, r, Solve(k, r, p, iters)) ==>
      forall q :: InSimplex(k, q) ==>
        Objective(k, r, Solve(k, r, p, iters)) - Objective(k, r, q) < 0.01 / k as real
    decreases iters
  {
    if iters > 0 && !Settled(k, r, p) {
      SweepDescends(k, r, p);
      SolveEnds(k, r, Sweep(k, r, p, k), iters - 1);
    } else if Settled(k, r, p) {
      forall q | InSimplex(k, q) ensures Objective(k, r, p) - Objective(k, r, q) < 0.01 / k as real {
        SettledIsNearOptimal(k, r, p, q);
      }
    }
  }

  // ------------------------------------------------------- what the optimum means

  /** p explains the table: every pair of classes agrees on the shares it gives each other. */
  ghost predicate Balanced(k: nat, r: Table, p: seq<real>)
  {
    forall t, j :: 0 <= t < k && 0 <= j < k ==> Shares(r, At(p))(t)(j) == Shares(r, At(p))(j)(t)
  }

  /** The objective is zero exactly at a distribution that explains the table. */
  lemma ZeroIffBalanced(k: nat, r: Table, p: seq<real>)
    requires |p| == k
    ensures Objective(k, r, p) == 0.0 <==> Balanced(k, r, p)
  {
    var gaps := Gaps(Shares(r, At(p)));
    var rows := RowDots(k, gaps, gaps);
    FormIsSumOfSquares(k, r, At(p));
    forall t | 0 <= t < k ensures rows(t) >= 0.0 {
      DotSquareNonnegative(k, gaps(t));
    }
    SumOfNonnegatives(k, rows);
    forall t | 0 <= t < k
      ensures rows(t) == 0.0 <==> forall j :: 0 <= j < k ==> gaps(t)(j) == 0.0
    {
      DotSquareZero(k, gaps(t));
    }
    forall t, j | 0 <= t < k && 0 <= j < k
      ensures gaps(t)(j) == 0.0 <==> Shares(r, At(p))(t)(j) == Shares(r, At(p))(j)(t)
    {
    }
    assert Balanced(k, r, p) <==> forall t, j :: 0 <= t < k && 0 <= j < k ==> gaps(t)(j) == 0.0;
  }

  /** Only one distribution explains the table. */
  lemma BalancedUnique(k: nat, r: Table, p: seq<real>, q: seq<real>)
    requires Pairwise(k, r) && k > 0
    requires Distribution(k, p) && Balanced(k, r, p)
    requires Distribution(k, q) && Balanced(k, r, q)
    ensures p == q
  {
    hide Balanced;
    hide Pairwise;
    hide Sum;
    forall t | 0 <= t < k ensures q[0] * p[t] == p[0] * q[t] {
      if t != 0 {
        BalancedRatio(k, r, p, q, t);
      }
    }
    var left: Vec := t => q[0] * At(p)(t);
    SumScaled(k, q[0], At(p), left);
    SumScaled(k, p[0], At(q), left);
    forall t | 0 <= t < k ensures p[t] == q[t] {
      SameFactor(p[0], p[t], q[t]);
    }
  }

  lemma BalancedRatio(k: nat, r: Table, p: seq<real>, q: seq<real>, t: nat)
    requires Pairwise(k, r) && 0 < t < k && |p| == k && |q| == k
    requires Balanced(k, r, p) && Balanced(k, r, q)
    ensures q[0] * p[t] == p[0] * q[t]
  {
    assert Shares(r, At(p))(t)(0) == Entry(r, 0, t) * p[t] && Shares(r, At(p))(0)(t) == Entry(r, t, 0) * p[0];
    assert Shares(r, At(q))(t)(0) == Entry(r, 0, t) * q[t] && Shares(r, At(q))(0)(t) == Entry(r, t, 0) * q[0];
    assert r[0][t] * p[t] == r[t][0] * p[0];
    assert r[0][t] * q[t] == r[t][0] * q[0];
    CrossRatio(r[0][t], r[t][0], p[t], p[0], q[t], q[0]);
  }

  lemma CrossRatio(a: real, b: real, x: real, x0: real, y: real, y0: real)
    requires a > 0.0 && b > 0.0
    requires a * x == b * x0 && a * y == b * y0
    ensures y0 * x == x0 * y
  {
    assert b * (y0 * x) == (b * y0) * x == (a * y) * x == (a * x) * y == (b * x0) * y == b * (x0 * y);
    SameFactor(b, y0 * x, x0 * y);
  }

  lemma SameFactor(c: real, x: real, y: real)
    requires c > 0.0 && c * x == c * y
    ensures x == y
  {
    if x < y {
      ProductSign(y - x, c);
      assert false;
    } else if y < x {
      ProductSign(x - y, c);
      assert false;
    }
  }

  /**
   When some distribution explains the table, a run that ends by its tolerance test has an objective
   below 0.01 / k; and a run that ends at zero has found that distribution.
   */
  lemma SolvesConsistentTable(k: nat, r: Table, p: seq<real>, iters: nat, truth: seq<real>)
    requires k > 0 && Pairwise(k, r) && Distribution(k, p)
    requires Distribution(k, truth) && Balanced(k, r, truth)
    ensures Settled(k, r, Solve(k, r, p, iters)) ==> Objective(k, r, Solve(k, r, p, iters)) < 0.01 / k as real
    ensures Objective(k, r, Solve(k, r, p, iters)) == 0.0 <==> Solve(k, r, p, iters) == truth
  {
    var end := Solve(k, r, p, iters);
    ZeroIffBalanced(k, r, truth);
    ZeroIffBalanced(k, r, end);
    if Settled(k, r, end) {
      SettledIsNearOptimal(k, r, end, truth);
    }
    if Objective(k, r, end) == 0.0 {
      BalancedUnique(k, r, end, truth);
    }
  }

  // ------------------------------------------------------------ the solver itself

  ghost predicate IsMatrix(k: nat, r: Table, q: array2<real>)
    reads q
  {
    && q.Length0 == k && q.Length1 == k
    && forall t, j :: 0 <= t < k && 0 <= j < k ==> q[t, j] == Coupling(k, r)(t)(j)
  }

  ghost predicate IsGradient(k: nat, r: Table, p: seq<real>, qp: array<real>)
    reads qp
  {
    qp.Length == k && forall t :: 0 <= t < k ==> qp[t] == Gradient(k, r, p)(t)
  }

  /** One entry of the matrix, built as the source builds it. */
  method BuildMatrix(k: nat, r: Table) returns (q: array2<real>)
    requires Pairwise(k, r)
    ensures fresh(q) && IsMatrix(k, r, q)
  {
    q := new real[k, k];
    for t := 0 to k
      invariant forall s, j :: 0 <= s < t && 0 <= j < k ==> q[s, j] == Coupling(k, r)(s)(j)
    {
      var own := 0.0;
      for j := 0 to k
        invariant own == Sum(j, Squares(r, t))
      {
        if j != t {
          own := own + Square(r[j][t]);
        }
      }
      q[t, t] := own;
      for j := 0 to k
        invariant forall s, i :: 0 <= s < t && 0 <= i < k ==> q[s, i] == Coupling(k, r)(s)(i)
        invariant q[t, t] == Coupling(k, r)(t)(t)
        invariant forall i :: 0 <= i < j ==> q[t, i] == Coupling(k, r)(t)(i)
      {
        if j != t {
          q[t, j] := -(r[j][t] * r[t][j]);
        }
      }
    }
  }

  /** Qp and p'Qp computed afresh. */
  method ComputeProducts(k: nat, ghost r: Table, q: array2<real>, p: array<real>, qp: array<real>)
    returns (pqp: real)
    requires Pairwise(k, r) && IsMatrix(k, r, q) && p.Length == k && qp.Length == k && p != qp
    modifies qp
    ensures IsGradient(k, r, p[..], qp)
    ensures pqp == Objective(k, r, p[..])
  {
    hide Coupling;
    hide Pairwise;
    ghost var x := p[..];
    for t := 0 to k
      invariant p[..] == x
      invariant forall s :: 0 <= s < t ==> qp[s] == Gradient(k, r, x)(s)
    {
      qp[t] := RowProduct(k, r, q, p, t);
    }
    pqp := 0.0;
    for t := 0 to k
      invariant pqp == Sum(t, Times(At(x), Gradient(k, r, x)))
    {
      pqp := pqp + p[t] * qp[t];
    }
  }

  /** One component of Qp. */
  method RowProduct(k: nat, ghost r: Table, q: array2<real>, p: array<real>, t: nat) returns (s: real)
    requires Pairwise(k, r) && IsMatrix(k, r, q) && p.Length == k && t < k
    ensures s == Gradient(k, r, p[..])(t)
  {
    hide Coupling;
    hide Pairwise;
    s := 0.0;
    for j := 0 to k
      invariant s == Sum(j, Times(Coupling(k, r)(t), At(p[..])))
    {
      s := s + q[t, j] * p[j];
    }
  }

  /** max |Qp[t] - p'Qp| < 0.005 / k, as the source computes it. */
  method TestSettled(k: nat, ghost r: Table, ghost p: seq<real>, qp: array<real>, pqp: real)
    returns (settled: bool)
    requires k > 0 && IsGradient(k, r, p, qp)
    requires pqp == Objective(k, r, p)
    ensures settled <==> Settled(k, r, p)
  {
    var worst := 0.0;
    ghost var at := 0;
    for t := 0 to k
      invariant worst >= 0.0
      invariant forall s :: 0 <= s < t ==> -worst <= qp[s] - pqp <= worst
      invariant worst == 0.0 || (0 <= at < t && (worst == qp[at] - pqp || worst == pqp - qp[at]))
    {
      var gap := if qp[t] >= pqp then qp[t] - pqp else pqp - qp[t];
      if gap > worst {
        worst := gap;
        at := t;
      }
    }
    settled := worst < Tolerance(k);
    if worst > 0.0 && !settled {
      assert qp[at] == Gradient(k, r, p)(at);
    }
  }

  /** Every product brought up to date and every probability divided by the new total. */
  method Renormalise(k: nat, ghost r: Table, q: array2<real>, p: array<real>, qp: array<real>, t: nat, diff: real,
                     ghost x: seq<real>)
    requires Pairwise(k, r) && Distribution(k, x) && t < k && k >= 2 && diff == Shift(k, r, x, t)
    requires |x| == k && 1.0 + diff > 0.0
    requires IsMatrix(k, r, q) && p.Length == k && p != qp && IsGradient(k, r, x, qp)
    requires p[..] == x[t := x[t] + diff]
    modifies p, qp
    ensures p[..] == Coordinate(k, r, x, t) && IsGradient(k, r, p[..], qp)
  {
    hide Coupling;
    hide Gradient;
    hide Distribution;
    hide Pairwise;
    hide MovedLinear;
    hide Coordinate;
    hide Shift;
    ghost var y, moved := Coordinate(k, r, x, t), x[t := x[t] + diff];
    for j := 0 to k
      invariant forall s :: 0 <= s < j ==> p[s] == y[s] && qp[s] == Gradient(k, r, y)(s)
      invariant forall s :: j <= s < k ==> p[s] == moved[s] && qp[s] == Gradient(k, r, x)(s)
    {
      CoordinateGradient(k, r, x, t, j);
      qp[j] := MovedLinear(qp[j], q[t, j], diff);
      p[j] := p[j] / (1.0 + diff);
    }
    assert p[..] == y;
  }

  /** The body of the inner loop: one coordinate, with Qp and p'Qp updated in place. */
  method UpdateCoordinate(k: nat, ghost r: Table, q: array2<real>, p: array<real>, qp: array<real>, pqp: real, t: nat)
    returns (pqp': real)
    requires Pairwise(k, r) && IsMatrix(k, r, q) && p.Length == k && qp.Length == k && p != qp
    requires t < k && Distribution(k, p[..])
    requires IsGradient(k, r, p[..], qp)
    requires pqp == Objective(k, r, p[..])
    modifies p, qp
    ensures p[..] == Coordinate(k, r, old(p[..]), t)
    ensures IsGradient(k, r, p[..], qp)
    ensures pqp' == Objective(k, r, p[..])
  {
    hide Coupling;
    hide Gradient;
    hide Objective;
    hide Distribution;
    hide Pairwise;
    hide MovedQuadratic;
    DiagonalPositive(k, r, t);
    if q[t, t] <= 0.0 {
      return pqp;
    }
    ghost var x := p[..];
    var diff := (-qp[t] + pqp) / q[t, t];
    CoordinateObjective(k, r, x, t);
    p[t] := p[t] + diff;
    pqp' := MovedQuadratic(pqp, qp[t], q[t, t], diff);
    Renormalise(k, r, q, p, qp, t, diff, x);
  }

  function Uniform(k: nat): seq<real>
    requires k > 0
  {
    seq(k, i => 1.0 / k as real)
  }

  lemma UniformIsDistribution(k: nat)
    requires k > 0
    ensures Distribution(k, Uniform(k)) && forall i :: 0 <= i < k ==> Uniform(k)[i] * k as real == 1.0
  {
    SumConstant(k, 1.0 / k as real, At(Uniform(k)));
    QuotientTimes(1.0, k as real);
  }

  /** One pass over the coordinates. */
  method SweepInPlace(k: nat, ghost r: Table, q: array2<real>, p: array<real>, qp: array<real>, start: real)
    requires Pairwise(k, r) && IsMatrix(k, r, q) && p.Length == k && qp.Length == k && p != qp
    requires Distribution(k, p[..])
    requires IsGradient(k, r, p[..], qp)
    requires start == Objective(k, r, p[..])
    modifies p, qp
    ensures p[..] == Sweep(k, r, old(p[..]), k)
  {
    ghost var x := p[..];
    var pqp := start;
    for t := 0 to k
      invariant p[..] == Sweep(k, r, x, t)
      invariant IsGradient(k, r, p[..], qp)
      invariant pqp == Objective(k, r, p[..])
      invariant IsMatrix(k, r, q)
    {
      pqp := UpdateCoordinate(k, r, q, p, qp, pqp, t);
    }
  }

  /** The final division by the total, or the uniform distribution when the total is zero. */
  method Normalise(k: nat, p: array<real>) returns (probs: seq<real>)
    requires k > 0 && p.Length == k
    ensures Sum(k, At(p[..])) == 0.0 ==> probs == Uniform(k)
    ensures Sum(k, At(p[..])) != 0.0 ==>
      |probs| == k && forall t :: 0 <= t < k ==> probs[t] == p[t] / Sum(k, At(p[..]))
    ensures Sum(k, At(p[..])) == 1.0 ==> probs == p[..]
  {
    var total := 0.0;
    for t := 0 to k
      invariant total == Sum(t, At(p[..]))
    {
      total := total + p[t];
    }
    probs := if total != 0.0 then seq(k, t requires 0 <= t < k reads p => p[t] / total) else Uniform(k);
  }

  method UniformArray(k: nat) returns (p: array<real>)
    requires k > 0
    ensures fresh(p) && p[..] == Uniform(k)
  {
    p := new real[k](i => 1.0 / k as real);
  }

  /**
   The solver: products kept up to date inside a sweep, recomputed between sweeps, and a final division
   by the total. It computes what `Solve` computes, and the final division changes nothing.
   */
  method MulticlassProbability(k: nat, r: Table, iters: nat) returns (probs: seq<real>)
    requires k > 0 && Pairwise(k, r)
    ensures Distribution(k, Uniform(k))
    ensures probs == Solve(k, r, Uniform(k), iters)
  {
    hide Sweep;
    hide Settled;
    hide Objective;
    hide Gradient;
    UniformIsDistribution(k);
    var p := UniformArray(k);
    var qp := new real[k];
    var q := BuildMatrix(k, r);
    var n := 0;
    while n < iters
      invariant n <= iters && Distribution(k, p[..])
      invariant Solve(k, r, p[..], iters - n) == Solve(k, r, Uniform(k), iters)
      invariant IsMatrix(k, r, q)
    {
      var pqp := ComputeProducts(k, r, q, p, qp);
      var settled := TestSettled(k, r, p[..], qp, pqp);
      if settled {
        break;
      }
      SweepInPlace(k, r, q, p, qp, pqp);
      n := n + 1;
    }
    probs := Normalise(k, p);
  }
}
