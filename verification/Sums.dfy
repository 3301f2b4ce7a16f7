/**
 Finite sums of reals over an index range, and vectors and matrices as functions of their indices.
 Every named combinator returns one function value, so that equal arguments give equal sums.
 */
module Sums {
  import opened RealArithmetic

  type Vec = int -> real
  type Matrix = int -> Vec

  ghost function Sum(n: nat, f: Vec): real
  {
    if n == 0 then 0.0 else Sum(n - 1, f) + f(n - 1)
  }

  /** A sequence as a vector, zero outside its range. */
  ghost function At(s: seq<real>): Vec
  {
    i => if 0 <= i < |s| then s[i] else 0.0
  }

  ghost function Times(u: Vec, v: Vec): Vec
  {
    i => u(i) * v(i)
  }

  ghost function Dot(n: nat, u: Vec, v: Vec): real
  {
    Sum(n, Times(u, v))
  }

  /** The matrix-vector product. */
  ghost function Product(n: nat, m: Matrix, v: Vec): Vec
  {
    t => Dot(n, m(t), v)
  }

  /** The bilinear form u' M v. */
  ghost function Form(n: nat, m: Matrix, u: Vec, v: Vec): real
  {
    Dot(n, u, Product(n, m, v))
  }

  ghost function Minus(u: Vec, v: Vec): Vec
  {
    i => u(i) - v(i)
  }

  ghost function RowSums(m: nat, f: Matrix): Vec
  {
    i => Sum(m, f(i))
  }

  ghost function Transposed(f: Matrix): Matrix
  {
    i => j => f(j)(i)
  }

  ghost predicate Symmetric(n: nat, m: Matrix)
  {
    forall i, j :: 0 <= i < n && 0 <= j < n ==> m(i)(j) == m(j)(i)
  }

  lemma {:induction false} SumEqual(n: nat, f: Vec, g: Vec)
    requires forall i :: 0 <= i < n ==> f(i) == g(i)
    ensures Sum(n, f) == Sum(n, g)
  {
    if n > 0 {
      SumEqual(n - 1, f, g);
    }
  }

  lemma {:induction false} SumLinear(n: nat, a: real, f: Vec, b: real, g: Vec, h: Vec)
    requires forall i :: 0 <= i < n ==> h(i) == a * f(i) + b * g(i)
    ensures Sum(n, h) == a * Sum(n, f) + b * Sum(n, g)
  {
    if n > 0 {
      SumLinear(n - 1, a, f, b, g, h);
      assert h(n - 1) == a * f(n - 1) + b * g(n - 1);
      Distribute(a, Sum(n - 1, f), f(n - 1));
      Distribute(b, Sum(n - 1, g), g(n - 1));
    }
  }

  lemma {:induction false} SumScaled(n: nat, c: real, f: Vec, h: Vec)
    requires forall i :: 0 <= i < n ==> h(i) == c * f(i)
    ensures Sum(n, h) == c * Sum(n, f)
  {
    if n > 0 {
      SumScaled(n - 1, c, f, h);
    }
  }

  lemma {:induction false} SumBetween(n: nat, f: Vec, g: Vec)
    requires forall i :: 0 <= i < n ==> f(i) <= g(i)
    ensures Sum(n, f) <= Sum(n, g)
  {
    if n > 0 {
      SumBetween(n - 1, f, g);
    }
  }

  /** A sum with one non-zero term. */
  lemma {:induction false} SumSingle(n: nat, t: int, f: Vec)
    requires 0 <= t < n
    requires forall i :: 0 <= i < n && i != t ==> f(i) == 0.0
    ensures Sum(n, f) == f(t)
  {
    if t == n - 1 {
      SumLinear(n - 1, 0.0, f, 0.0, f, f);
    } else {
      SumSingle(n - 1, t, f);
    }
  }

  /** A sum lies below its one positive term, when another term is negative. */
  lemma {:induction false} SumBelowTerm(n: nat, f: Vec, t: int, u: int)
    requires 0 <= t < n && 0 <= u < n && u != t && f(u) < 0.0
    requires forall i :: 0 <= i < n && i != t ==> f(i) <= 0.0
    ensures Sum(n, f) < f(t)
  {
    var own: Vec := i => if i == t then f(t) else 0.0;
    var other: Vec := i => if i == u then f(u) else 0.0;
    var bound: Vec := i => own(i) + other(i);
    SumSingle(n, t, own);
    SumSingle(n, u, other);
    SumLinear(n, 1.0, own, 1.0, other, bound);
    SumBetween(n, f, bound);
  }

  lemma {:induction false} SumConstant(n: nat, c: real, f: Vec)
    requires forall i :: 0 <= i < n ==> f(i) == c
    ensures Sum(n, f) == n as real * c
  {
    if n > 0 {
      SumConstant(n - 1, c, f);
      Distribute(c, (n - 1) as real, 1.0);
      assert n as real == (n - 1) as real + 1.0;
    }
  }

  lemma EmptyColumns(m: nat, f: Matrix)
    ensures Sum(m, RowSums(0, Transposed(f))) == 0.0
  {
    forall j | 0 <= j < m ensures RowSums(0, Transposed(f))(j) == 0.0 {
      assert Sum(0, Transposed(f)(j)) == 0.0;
    }
    SumConstant(m, 0.0, RowSums(0, Transposed(f)));
  }

  lemma OneMoreRow(n: nat, m: nat, f: Matrix)
    ensures Sum(m, RowSums(n + 1, Transposed(f))) == Sum(m, RowSums(n, Transposed(f))) + Sum(m, f(n))
  {
    forall j | 0 <= j < m
      ensures RowSums(n + 1, Transposed(f))(j) == 1.0 * RowSums(n, Transposed(f))(j) + 1.0 * f(n)(j)
    {
      assert Sum(n + 1, Transposed(f)(j)) == Sum(n, Transposed(f)(j)) + Transposed(f)(j)(n);
      assert Transposed(f)(j)(n) == f(n)(j);
    }
    SumLinear(m, 1.0, RowSums(n, Transposed(f)), 1.0, f(n), RowSums(n + 1, Transposed(f)));
  }

  /** Adding along rows first or along columns first is the same. */
  lemma {:induction false} SumSwap(n: nat, m: nat, f: Matrix)
    ensures Sum(n, RowSums(m, f)) == Sum(m, RowSums(n, Transposed(f)))
  {
    if n == 0 {
      EmptyColumns(m, f);
      assert Sum(0, RowSums(m, f)) == 0.0;
    } else {
      SumSwap(n - 1, m, f);
      OneMoreRow(n - 1, m, f);
      assert Sum(n, RowSums(m, f)) == Sum(n - 1, RowSums(m, f)) + RowSums(m, f)(n - 1);
    }
  }

  lemma DotLinear(n: nat, u: Vec, a: real, v: Vec, b: real, w: Vec, x: Vec)
    requires forall i :: 0 <= i < n ==> x(i) == a * v(i) + b * w(i)
    ensures Dot(n, u, x) == a * Dot(n, u, v) + b * Dot(n, u, w)
  {
    forall i | 0 <= i < n ensures Times(u, x)(i) == a * Times(u, v)(i) + b * Times(u, w)(i) {
      assert x(i) == a * v(i) + b * w(i);
    }
    SumLinear(n, a, Times(u, v), b, Times(u, w), Times(u, x));
  }

  lemma DotCommutes(n: nat, u: Vec, v: Vec)
    ensures Dot(n, u, v) == Dot(n, v, u)
  {
    SumEqual(n, Times(u, v), Times(v, u));
  }

  lemma FormLinearRight(n: nat, m: Matrix, u: Vec, a: real, v: Vec, b: real, w: Vec, x: Vec)
    requires forall i :: 0 <= i < n ==> x(i) == a * v(i) + b * w(i)
    ensures Form(n, m, u, x) == a * Form(n, m, u, v) + b * Form(n, m, u, w)
  {
    forall t | 0 <= t < n
      ensures Product(n, m, x)(t) == a * Product(n, m, v)(t) + b * Product(n, m, w)(t)
    {
      DotLinear(n, m(t), a, v, b, w, x);
    }
    DotLinear(n, u, a, Product(n, m, v), b, Product(n, m, w), Product(n, m, x));
  }

  /** The terms of u' M v, as a matrix. */
  ghost function Terms(m: Matrix, u: Vec, v: Vec): Matrix
  {
    s => t => u(s) * (m(s)(t) * v(t))
  }

  lemma FormAsTerms(n: nat, m: Matrix, u: Vec, v: Vec)
    ensures Form(n, m, u, v) == Sum(n, RowSums(n, Terms(m, u, v)))
  {
    forall s | 0 <= s < n
      ensures RowSums(n, Terms(m, u, v))(s) == Times(u, Product(n, m, v))(s)
    {
      SumLinear(n, u(s), Times(m(s), v), 0.0, Times(m(s), v), Terms(m, u, v)(s));
    }
    SumEqual(n, RowSums(n, Terms(m, u, v)), Times(u, Product(n, m, v)));
  }

  lemma FormSymmetric(n: nat, m: Matrix, u: Vec, v: Vec)
    requires Symmetric(n, m)
    ensures Form(n, m, u, v) == Form(n, m, v, u)
  {
    FormAsTerms(n, m, u, v);
    FormAsTerms(n, m, v, u);
    SumSwap(n, n, Terms(m, u, v));
    forall t | 0 <= t < n
      ensures RowSums(n, Transposed(Terms(m, u, v)))(t) == RowSums(n, Terms(m, v, u))(t)
    {
      forall s | 0 <= s < n ensures Transposed(Terms(m, u, v))(t)(s) == Terms(m, v, u)(t)(s) {
        assert m(s)(t) == m(t)(s);
      }
      SumEqual(n, Transposed(Terms(m, u, v))(t), Terms(m, v, u)(t));
    }
    SumEqual(n, RowSums(n, Transposed(Terms(m, u, v))), RowSums(n, Terms(m, v, u)));
  }

  /** (au + bv)' M (au + bv) for a symmetric M. */
  lemma FormOfSum(n: nat, m: Matrix, a: real, u: Vec, b: real, v: Vec, x: Vec)
    requires Symmetric(n, m)
    requires forall i :: 0 <= i < n ==> x(i) == a * u(i) + b * v(i)
    ensures Form(n, m, x, x)
         == a * a * Form(n, m, u, u) + 2.0 * a * b * Form(n, m, u, v) + b * b * Form(n, m, v, v)
  {
    hide Form;
    FormLinearRight(n, m, x, a, u, b, v, x);
    FormSymmetric(n, m, x, u);
    FormSymmetric(n, m, x, v);
    FormLinearRight(n, m, u, a, u, b, v, x);
    FormLinearRight(n, m, v, a, u, b, v, x);
    FormSymmetric(n, m, u, v);
    SquareExpanded(a, b, Form(n, m, u, u), Form(n, m, u, v), Form(n, m, v, v),
                   Form(n, m, x, u), Form(n, m, x, v), Form(n, m, x, x));
  }

  /** |u - v|^2 = |u|^2 + |v|^2 - 2 u.v */
  lemma DotOfDifference(n: nat, u: Vec, v: Vec)
    ensures Dot(n, Minus(u, v), Minus(u, v)) == Dot(n, u, u) + Dot(n, v, v) - 2.0 * Dot(n, u, v)
  {
    DotLinear(n, Minus(u, v), 1.0, u, -1.0, v, Minus(u, v));
    DotCommutes(n, Minus(u, v), u);
    DotCommutes(n, Minus(u, v), v);
    DotLinear(n, u, 1.0, u, -1.0, v, Minus(u, v));
    DotLinear(n, v, 1.0, u, -1.0, v, Minus(u, v));
    DotCommutes(n, u, v);
  }

  ghost function RowDots(n: nat, a: Matrix, b: Matrix): Vec
  {
    t => Dot(n, a(t), b(t))
  }

  ghost function Products(a: Matrix, b: Matrix): Matrix
  {
    t => Times(a(t), b(t))
  }

  /** A matrix and its transpose have the same sum of squares. */
  lemma SquaresTransposed(n: nat, a: Matrix)
    ensures Sum(n, RowDots(n, a, a)) == Sum(n, RowDots(n, Transposed(a), Transposed(a)))
  {
    var squares := Products(a, a);
    forall t | 0 <= t < n ensures RowDots(n, a, a)(t) == RowSums(n, squares)(t) {
      assert squares(t) == Times(a(t), a(t));
    }
    SumEqual(n, RowDots(n, a, a), RowSums(n, squares));
    SumSwap(n, n, squares);
    forall t | 0 <= t < n
      ensures RowSums(n, Transposed(squares))(t) == RowDots(n, Transposed(a), Transposed(a))(t)
    {
      forall s | 0 <= s < n
        ensures Transposed(squares)(t)(s) == Times(Transposed(a)(t), Transposed(a)(t))(s)
      {
        assert squares(s) == Times(a(s), a(s));
      }
      SumEqual(n, Transposed(squares)(t), Times(Transposed(a)(t), Transposed(a)(t)));
    }
    SumEqual(n, RowSums(n, Transposed(squares)), RowDots(n, Transposed(a), Transposed(a)));
  }

  ghost function Gaps(a: Matrix): Matrix
  {
    t => Minus(a(t), Transposed(a)(t))
  }

  /** The squared differences of a matrix and its transpose. */
  lemma SumOfGaps(n: nat, a: Matrix)
    ensures Sum(n, RowDots(n, Gaps(a), Gaps(a)))
         == 2.0 * Sum(n, RowDots(n, a, a)) - 2.0 * Sum(n, RowDots(n, a, Transposed(a)))
  {
    var turned := Transposed(a);
    var own, other, cross := RowDots(n, a, a), RowDots(n, turned, turned), RowDots(n, a, turned);
    var both: Vec := t => own(t) + other(t);
    SquaresTransposed(n, a);
    SumLinear(n, 1.0, own, 1.0, other, both);
    forall t | 0 <= t < n ensures RowDots(n, Gaps(a), Gaps(a))(t) == both(t) - 2.0 * cross(t) {
      DotOfDifference(n, a(t), turned(t));
    }
    SumLinear(n, 1.0, both, -2.0, cross, RowDots(n, Gaps(a), Gaps(a)));
  }

  lemma DotSquareNonnegative(n: nat, u: Vec)
    ensures Dot(n, u, u) >= 0.0
  {
    var zero: Vec := i => 0.0;
    SumConstant(n, 0.0, zero);
    SumBetween(n, zero, Times(u, u));
  }

  lemma {:induction false} SumOfNonnegatives(n: nat, f: Vec)
    requires forall i :: 0 <= i < n ==> f(i) >= 0.0
    ensures Sum(n, f) >= 0.0
    ensures Sum(n, f) == 0.0 <==> forall i :: 0 <= i < n ==> f(i) == 0.0
  {
    if n > 0 {
      SumOfNonnegatives(n - 1, f);
    }
  }

  lemma DotSquareZero(n: nat, u: Vec)
    ensures Dot(n, u, u) == 0.0 <==> forall i :: 0 <= i < n ==> u(i) == 0.0
  {
    forall i | 0 <= i < n
      ensures Times(u, u)(i) >= 0.0
      ensures Times(u, u)(i) == 0.0 <==> u(i) == 0.0
    {
      SquareSign(u(i));
      assert Times(u, u)(i) == Square(u(i));
    }
    SumOfNonnegatives(n, Times(u, u));
  }
}
