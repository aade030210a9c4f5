/** Multiplication and division of natural numbers. */
module Arithmetic {
  lemma MulLess(a: nat, b: nat, n: nat)
    requires a < b
    ensures a * n + n <= b * n
  {
    MulAtLeast(b - a, n);
    assert b * n == a * n + (b - a) * n;
  }

  lemma MulAtLeast(k: nat, n: nat)
    requires k >= 1
    ensures k * n >= n
  {
    assert k * n == n + (k - 1) * n;
  }

  lemma MulAtMost(a: nat, b: nat, n: nat)
    requires a <= b
    ensures a * n <= b * n
  {
    assert b * n == a * n + (b - a) * n;
  }

  lemma MulAssoc(a: nat, b: nat, c: nat)
    ensures a * b * c == a * (b * c)
  {}

  lemma NestedIndex(i: nat, k: nat, n: nat, r: nat)
    ensures (i * k + r) * n == i * (k * n) + r * n
  {
    MulAssoc(i, k, n);
    assert (i * k + r) * n == i * k * n + r * n;
  }

  lemma MulCancel(a: nat, b: nat, c: nat)
    requires c > 0 && a * c == b * c
    ensures a == b
  {
    if a < b {
      MulLess(a, b, c);
    } else if b < a {
      MulLess(b, a, c);
    }
  }

  /** A number has one quotient and one remainder. */
  lemma RadixUnique(a: nat, r: nat, b: nat, q: nat, n: nat)
    requires r < n && q < n && a * n + r == b * n + q
    ensures a == b && r == q
  {
    if a < b {
      MulLess(a, b, n);
    } else if b < a {
      MulLess(b, a, n);
    }
  }

  lemma DivMod(x: nat, n: nat)
    requires n > 0
    ensures x == x / n * n + x % n && x % n < n
  {}

  lemma DivIs(x: nat, q: nat, r: nat, n: nat)
    requires r < n && x == q * n + r
    ensures x / n == q && x % n == r
  {
    assert x == x / n * n + x % n;
    RadixUnique(x / n, x % n, q, r, n);
  }

  lemma MulDiv(a: nat, b: nat)
    requires b > 0
    ensures b * a / b == a
  {
    DivIs(b * a, a, 0, b);
  }

  lemma ExactDiv(a: nat, b: nat)
    requires b > 0 && a % b == 0
    ensures a == b * (a / b)
  {}

  lemma DivMulLe(len: nat, rows: nat)
    requires rows > 0
    ensures rows * (len / rows) <= len
  {}
}
