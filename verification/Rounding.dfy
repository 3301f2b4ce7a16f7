/** Rounding to the nearest integer, ties to even, as the source language's `round` does it. */
module Rounding {

  function RoundHalfEven(x: real): (n: int)
    ensures n as real - 0.5 <= x <= n as real + 0.5
  {
    var f := x.Floor;
    var d := x - f as real;
    if d < 0.5 then f
    else if d > 0.5 then f + 1
    else if f % 2 == 0 then f
    else f + 1
  }

  /** Anything closer than a half to an integer rounds to it. */
  lemma RoundsToNear(x: real, n: int)
    requires n as real - 0.5 < x < n as real + 0.5
    ensures RoundHalfEven(x) == n
  {
    var m := RoundHalfEven(x);
    assert -1.0 < (m - n) as real < 1.0;
  }

  /** round(x, digits), for scale = 10^digits. */
  function RoundTo(x: real, scale: nat): real
    requires scale > 0
  {
    RoundHalfEven(x * scale as real) as real / scale as real
  }
}
