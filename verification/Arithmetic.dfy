/** Small facts about integers and reals that several components need. */
module Arithmetic {

  function Min(a: int, b: int): (m: int)
    ensures m <= a && m <= b && (m == a || m == b)
  {
    if a < b then a else b
  }

  function Max(a: int, b: int): (m: int)
    ensures m >= a && m >= b && (m == a || m == b)
  {
    if a > b then a else b
  }

  function Sum(xs: seq<real>): real {
    if xs == [] then 0.0 else Sum(xs[..|xs| - 1]) + xs[|xs| - 1]
  }

  lemma SmallMultiple(m: int, d: int)
    requires m > 0 && -m < m * d < m
    ensures d == 0
  {
    assert (d >= 1 ==> m * d >= m) && (d <= -1 ==> m * d <= -m);
  }

  /** Quotient and remainder are unique. */
  lemma DivModUnique(x: int, m: int, q: int, y: int)
    requires 0 <= y < m && x == m * q + y
    ensures x % m == y && x / m == q
  {
    var d := x / m - q;
    assert m * d == y - x % m by { assert m * d == m * (x / m) - m * q; }
    SmallMultiple(m, d);
  }

  lemma CancelFactor(x: real, y: real, k: real)
    requires x * k == y * k && k > 0.0
    ensures x == y
  {
    assert (x - y) * k == 0.0;
  }

  function Multiply(a: nat, b: nat): nat { a * b }

  /** A number below m * n has a quotient below n. */
  lemma QuotientBelow(x: nat, m: nat, n: nat)
    requires m > 0 && x < m * n
    ensures x / m < n
  {
    var q := x / m;
    assert m * (n - q) == m * n - m * q;
    assert n - q <= 0 ==> m * (n - q) <= 0;
  }

  /** Going up by at least m raises the quotient. */
  lemma QuotientRises(x: nat, y: nat, m: nat)
    requires m > 0 && y >= x + m
    ensures x / m < y / m
  {
    var p, q := x / m, y / m;
    assert m * (q - p) == m * q - m * p;
    assert q - p <= 0 ==> m * (q - p) <= 0;
  }

  lemma QuotientTimes(x: real, k: real)
    requires k > 0.0
    ensures (x / k) * k == x
  {
  }
}
