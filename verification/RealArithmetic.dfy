/**
 Small facts about products and quotients of reals, kept away from the functions they are used for.
 */
module RealArithmetic {

  /** The weight with which a move by d mixes in what it moves towards, once divided by 1 + d. */
  ghost function Weight(d: real): (f: real)
    requires 1.0 + d > 0.0
    ensures f * (1.0 + d) == d
    ensures f == 0.0 <==> d == 0.0
  {
    d / (1.0 + d)
  }

  function Square(x: real): real
  {
    x * x
  }

  lemma ProductOfEquals(x: real, y: real, z: real)
    requires x == y && z == x * y
    ensures z >= 0.0
    ensures x != 0.0 ==> z > 0.0
  {
    if x > 0.0 {
      ProductSign(x, y);
    } else if x < 0.0 {
      ProductSign(-x, -y);
      assert (-x) * (-y) == x * y;
    }
  }

  lemma SquareSign(x: real)
    ensures Square(x) >= 0.0
    ensures x != 0.0 ==> Square(x) > 0.0
  {
    ProductOfEquals(x, x, Square(x));
  }

  lemma ProductSign(x: real, y: real)
    requires y > 0.0
    ensures x > 0.0 ==> x * y > 0.0
    ensures x == 0.0 ==> x * y == 0.0
    ensures x < 0.0 ==> x * y < 0.0
  {
  }

  lemma Distribute(x: real, y: real, z: real)
    ensures x * (y + z) == x * y + x * z
    ensures (y + z) * x == y * x + z * x
  {
  }

  lemma Regroup(a: real, b: real, x: real, y: real)
    ensures (a * b) * (x * y) == (a * x) * (b * y)
  {
  }

  lemma Ratio(x: real, s: real, y: real)
    requires s > 0.0 && y * s == x
    ensures x / s == y
  {
  }

  lemma QuotientTimes(x: real, q: real)
    requires q > 0.0
    ensures (x / q) * q == x
    ensures x / q == 0.0 <==> x == 0.0
    ensures x > 0.0 ==> x / q > 0.0
  {
  }

  lemma RiseQuotient(g: real, o: real, q: real, x: real)
    requires q > 0.0 && g < q * x && o >= 0.0
    ensures x + (-g + o) / q > 0.0
  {
    var d := (-g + o) / q;
    QuotientTimes(-g + o, q);
    Distribute(q, x, d);
    if x + d <= 0.0 {
      ProductSign(x + d, q);
      assert false;
    }
  }

  /** A linear function's new value after a move by d and a division by 1 + d, from its value g. */
  function MovedLinear(g: real, q: real, d: real): real
    requires 1.0 + d > 0.0
  {
    (g + d * q) / (1.0 + d)
  }

  lemma MixAsQuotient(g: real, q: real, d: real)
    requires 1.0 + d > 0.0
    ensures MovedLinear(g, q, d) == (1.0 - Weight(d)) * g + Weight(d) * q
  {
    var f := Weight(d);
    var s := 1.0 + d;
    calc {
      ((1.0 - f) * g + f * q) * s;
      { Distribute(s, (1.0 - f) * g, f * q); }
      ((1.0 - f) * g) * s + (f * q) * s;
      g * (s - f * s) + (f * s) * q;
      g * 1.0 + d * q;
    }
    Ratio(g + d * q, s, (1.0 - f) * g + f * q);
  }

  lemma MixOfOne(x: real, d: real)
    requires 1.0 + d > 0.0
    ensures x / (1.0 + d) == (1.0 - Weight(d)) * x
    ensures (x + d) / (1.0 + d) == (1.0 - Weight(d)) * x + Weight(d)
  {
    MixAsQuotient(x, 0.0, d);
    MixAsQuotient(x, 1.0, d);
  }

  /** A quadratic's new value after a move by d and a division by 1 + d, from its value o and slope g. */
  function MovedQuadratic(o: real, g: real, q: real, d: real): real
    requires 1.0 + d > 0.0
  {
    SquareSign(1.0 + d);
    (o + d * (d * q + 2.0 * g)) / Square(1.0 + d)
  }

  lemma MixedQuadratic(o: real, g: real, q: real, d: real)
    requires 1.0 + d > 0.0
    ensures var f := Weight(d);
      MovedQuadratic(o, g, q, d) == (1.0 - f) * (1.0 - f) * o + 2.0 * (1.0 - f) * f * g + f * f * q
  {
    var f, s := Weight(d), 1.0 + d;
    var e := 1.0 - f;
    assert f * s == d;
    assert e * s == 1.0 by { Distribute(s, 1.0, -f); }
    Regroup(e, e, s, s);
    Regroup(e, f, s, s);
    Regroup(f, f, s, s);
    var ss := Square(s);
    SquareSign(s);
    assert (e * e) * ss == 1.0 && (e * f) * ss == d && (f * f) * ss == d * d;
    calc {
      (e * e * o + 2.0 * e * f * g + f * f * q) * ss;
      ((e * e) * ss) * o + 2.0 * (((e * f) * ss) * g) + ((f * f) * ss) * q;
      o + 2.0 * (d * g) + d * d * q;
      o + d * (d * q + 2.0 * g);
    }
    Ratio(o + d * (d * q + 2.0 * g), ss, e * e * o + 2.0 * e * f * g + f * f * q);
  }

  lemma MixedQuadraticDrop(o: real, g: real, q: real, d: real)
    requires 1.0 + d > 0.0 && d * q == o - g
    ensures var f := Weight(d);
      (1.0 - f) * (1.0 - f) * o + 2.0 * (1.0 - f) * f * g + f * f * q == o - Square(f) * (o + q)
  {
    var f := Weight(d);
    var e := 1.0 - f;
    assert f * (1.0 + d) == d;
    Distribute(d, 1.0, -f);
    assert e * d == f;
    Regroup(e, f, d, q);
    assert (e * f) * (d * q) == f * (f * q);
    assert e * f * g == e * f * o - f * (f * q);
    assert e * e * o + 2.0 * (e * f * o) == o - f * f * o;
  }

  /** A weighted square is positive exactly when its base is not zero. */
  lemma ScaledSquareSign(f: real, c: real)
    requires c > 0.0
    ensures f == 0.0 ==> Square(f) * c == 0.0
    ensures f != 0.0 ==> Square(f) * c > 0.0
  {
    SquareSign(f);
    ProductSign(Square(f), c);
  }

  lemma OrderedProducts(w: real, a: real, b: real)
    requires w >= 0.0 && a <= b
    ensures a * w <= w * b
  {
    if a < b && w > 0.0 {
      ProductSign(b - a, w);
    }
  }

  /** x'Mx, given Mx, for x = au + bv. */
  lemma SquareExpanded(a: real, b: real, uu: real, uv: real, vv: real, xu: real, xv: real, xx: real)
    requires xx == a * xu + b * xv
    requires xu == a * uu + b * uv && xv == a * uv + b * vv
    ensures xx == a * a * uu + 2.0 * a * b * uv + b * b * vv
  {
    assert a * xu == a * (a * uu) + a * (b * uv);
    assert b * xv == b * (a * uv) + b * (b * vv);
    assert a * (b * uv) == b * (a * uv);
  }

  /** The mixed objective lies below the old one, by nothing only when nothing moved. */
  lemma Descent(o: real, g: real, q: real, d: real, mixed: real)
    requires 1.0 + d > 0.0 && d * q == o - g && q > 0.0 && o >= 0.0
    requires var f := Weight(d); mixed == (1.0 - f) * (1.0 - f) * o + 2.0 * (1.0 - f) * f * g + f * f * q
    ensures mixed == o - Square(Weight(d)) * (o + q)
    ensures mixed <= o
    ensures mixed == o <==> d == 0.0
  {
    MixedQuadraticDrop(o, g, q, d);
    ScaledSquareSign(Weight(d), o + q);
  }
}
