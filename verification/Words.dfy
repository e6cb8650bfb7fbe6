/** The width of JavaScript's bitwise operators, and division with remainder. */
module Words {
  const TWO32: nat := 0x1_0000_0000

  function Quotient(n: nat, d: nat): (q: nat)
    requires d > 0
    ensures d >= 2 && n > 0 ==> q < n
    ensures n > 0 && q == 0 ==> Remainder(n, d) > 0
  {
    n / d
  }

  function Remainder(n: nat, d: nat): (r: nat)
    requires d > 0
    ensures r < d
  {
    n % d
  }

  lemma MultipleAtLeast(d: int, m: nat)
    requires d >= 1
    ensures d * m >= m
  {
  }

  /** There is one way to divide. */
  lemma ModUnique(x: int, m: nat, q: int, r: nat)
    requires m > 0 && r < m && x == q * m + r
    ensures x % m == r && x / m == q
  {
    var d := x / m - q;
    assert x == (x / m) * m + x % m;
    assert d * m == (x / m) * m - q * m;
    if d >= 1 {
      MultipleAtLeast(d, m);
    } else if d <= -1 {
      MultipleAtLeast(-d, m);
    }
  }
}
