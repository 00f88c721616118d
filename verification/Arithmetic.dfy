/** Facts about products and remainders of natural numbers. */
module Arithmetic {
  lemma Product(a: nat, b: nat)
    ensures a * b >= 0
  {
  }

  lemma Gap(d: nat, a: nat, b: nat)
    requires a > b
    ensures d * a >= d * b + d
  {
    var e := a - b - 1;
    Product(d, e);
    assert d * a == d * (b + 1 + e);
  }

  lemma Quotient(n: nat, d: nat, q: nat, r: nat)
    requires d > 0 && n == d * q + r && r < d
    ensures n / d == q && n % d == r
  {
    assert n == d * (n / d) + n % d;
    if q > n / d {
      Gap(d, q, n / d);
    } else if q < n / d {
      Gap(d, n / d, q);
    }
  }

  lemma MultipleAligned(x: nat, m: nat)
    requires m > 0
    ensures (m * x) % m == 0 && (m * x) / m == x
  {
    Quotient(m * x, m, x, 0);
  }

  lemma AlignedSum(a: nat, b: nat, m: nat)
    requires m > 0 && a % m == 0 && b % m == 0
    ensures (a + b) % m == 0
  {
    var x, y := a / m, b / m;
    assert a == m * x && b == m * y;
    assert a + b == m * (x + y);
    MultipleAligned(x + y, m);
  }

  lemma AlignedDifference(a: nat, b: nat, m: nat)
    requires m > 0 && a % m == 0 && b % m == 0 && b <= a
    ensures (a - b) % m == 0
  {
    var x, y := a / m, b / m;
    assert a == m * x && b == m * y;
    if y > x {
      Gap(m, y, x);
    }
    assert a - b == m * (x - y);
    MultipleAligned(x - y, m);
  }
}
