/** Decimal numerals: the text of an integer, and back. */
module Decimals {

  function Digit(d: nat): (c: char)
    requires d < 10
    ensures IsDigit(c) && DigitValue(c) == d
  {
    ['0', '1', '2', '3', '4', '5', '6', '7', '8', '9'][d]
  }

  predicate IsDigit(c: char) { '0' <= c <= '9' }

  predicate AllDigits(s: string) { forall i :: 0 <= i < |s| ==> IsDigit(s[i]) }

  function DigitValue(c: char): nat
    requires IsDigit(c)
  {
    c as int - '0' as int
  }

  /** The numeral of `n`, without leading zeros. */
  function Numeral(n: nat): (s: string)
    ensures s != "" && AllDigits(s) && Value(s) == n
  {
    if n < 10 then [Digit(n)] else
      var s := Numeral(n / 10);
      var r := s + [Digit(n % 10)];
      assert r[..|r| - 1] == s;
      r
  }

  function Value(s: string): nat
    requires AllDigits(s)
  {
    if s == "" then 0 else 10 * Value(s[..|s| - 1]) + DigitValue(s[|s| - 1])
  }

  function IntText(n: int): string { if n < 0 then "-" + Numeral(-n) else Numeral(n) }

  /** Two runs of digits, each ended by something else, are read the same way. */
  lemma {:induction false} DigitRuns(a: string, b: string, x: string, y: string)
    requires AllDigits(a) && AllDigits(b) && a + x == b + y
    requires x == "" || !IsDigit(x[0])
    requires y == "" || !IsDigit(y[0])
    ensures a == b && x == y
  {
    var s := a + x;
    assert s == b + y;
    assert forall i :: 0 <= i < |a| ==> IsDigit(s[i]);
    assert forall i :: 0 <= i < |b| ==> IsDigit(s[i]);
    assert x != "" ==> s[|a|] == x[0];
    assert y != "" ==> s[|b|] == y[0];
    assert |a| == |b|;
    assert a == s[..|a|] && b == s[..|b|] && x == s[|a|..] && y == s[|b|..];
  }

  lemma SignShows(a: int, x: string)
    ensures var s := IntText(a) + x;
            && s != "" && (s[0] == '-' <==> a < 0)
            && (if a < 0 then s[1..] == Numeral(-a) + x else s == Numeral(a) + x)
  {
    hide Value, Numeral;
    if a < 0 {
      assert ("-" + Numeral(-a) + x)[1..] == Numeral(-a) + x;
    } else {
      assert IsDigit(Numeral(a)[0]);
    }
  }

  lemma ReadInt(a: int, b: int, x: string, y: string)
    requires IntText(a) + x == IntText(b) + y
    requires x == "" || !IsDigit(x[0])
    requires y == "" || !IsDigit(y[0])
    ensures a == b && x == y
  {
    hide Value, Numeral, IntText;
    SignShows(a, x);
    SignShows(b, y);
    if a < 0 {
      DigitRuns(Numeral(-a), Numeral(-b), x, y);
    } else {
      DigitRuns(Numeral(a), Numeral(b), x, y);
    }
  }
}
