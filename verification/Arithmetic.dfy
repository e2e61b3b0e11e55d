/** Division with remainder. */
module Arithmetic {

  lemma Divided(x: int, n: int)
    requires n > 0
    ensures x == (x / n) * n + x % n && 0 <= x % n < n && (x >= 0 ==> x / n >= 0)
  {
  }

  lemma Quotient(x: int, n: int, q: int, r: int)
    requires n > 0 && x == q * n + r && 0 <= r < n
    ensures x / n == q && x % n == r
  {
    assert x == n * (x / n) + x % n;
    var d := x / n - q;
    assert n * d == n * (x / n) - q * n;
    assert d >= 1 ==> n * d >= n;
    assert d <= -1 ==> n * d <= -n;
  }

  /** Numbers less than n apart have different remainders. */
  lemma Apart(x: int, y: int, n: int)
    requires n > 0
    ensures x < y < x + n ==> x % n != y % n
  {
    var q, r := x / n, x % n;
    Divided(x, n);
    if x < y < x + n {
      if r + (y - x) < n { Quotient(y, n, q, r + (y - x)); } else { Quotient(y, n, q + 1, r + (y - x) - n); }
    }
  }

  lemma Times(x: int, y: int, n: int)
    requires n >= 1
    ensures (x <= y ==> x * n <= y * n) && (x < y ==> x * n + n <= y * n)
  {
    Distribute(x, y - x, n);
    AtLeast(y - x, n);
  }

  lemma Distribute(x: int, d: int, n: int)
    ensures (x + d) * n == x * n + d * n
  {
  }

  lemma AtLeast(d: int, n: int)
    requires n >= 1
    ensures (d >= 0 ==> d * n >= 0) && (d >= 1 ==> d * n >= n)
  {
  }
}
