/** Numbers written in decimal. */
module Decimal {

  function Digits(n: nat): (s: string)
    ensures |s| > 0 && forall i :: 0 <= i < |s| ==> '0' <= s[i] <= '9'
  {
    if n < 10 then [DigitOf(n)] else Digits(n / 10) + [DigitOf(n % 10)]
  }

  function DigitOf(d: nat): (c: char)
    requires d < 10
    ensures '0' <= c <= '9' && c as int == 48 + d
  {
    (48 + d) as char
  }

  lemma {:induction false} DigitsInjective(m: nat, n: nat)
    requires Digits(m) == Digits(n)
    ensures m == n
  {
    var a, b := Digits(m), Digits(n);
    assert a[|a| - 1] == DigitOf(m % 10) && b[|b| - 1] == DigitOf(n % 10);
    if m >= 10 && n >= 10 {
      assert a[..|a| - 1] == Digits(m / 10) && b[..|b| - 1] == Digits(n / 10);
      DigitsInjective(m / 10, n / 10);
    }
  }

  /** What a decimal text stands for. */
  function Reading(s: string): int
  {
    if s == "" then 0 else 10 * Reading(s[..|s| - 1]) + s[|s| - 1] as int - '0' as int
  }

  /** A number is written without leading zeros, and can be read back. */
  lemma {:induction false} DigitsRead(n: nat)
    ensures Reading(Digits(n)) == n && (n > 0 ==> Digits(n)[0] != '0') && (|Digits(n)| == 1 <==> n < 10)
  {
    var s := Digits(n);
    if n >= 10 {
      DigitsRead(n / 10);
      assert s[..|s| - 1] == Digits(n / 10);
    } else {
      assert s[..|s| - 1] == "";
    }
  }
}
