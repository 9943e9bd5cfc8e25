/** Minimum, maximum and rounding up; products and quotients of integers, one fact at a time. */
module Arithmetic {

  function Min(a: int, b: int): int { if a < b then a else b }

  function Max(a: int, b: int): int { if a < b then b else a }

  function CeilDiv(a: nat, b: nat): nat
    requires b > 0
  {
    (a + b - 1) / b
  }

  lemma Distribute(n: nat, x: int)
    requires n > 0
    ensures n * x == (n - 1) * x + x
  {
  }

  lemma AtLeastOnce(n: nat, x: nat)
    requires n > 0
    ensures x <= n * x
  {
  }

  lemma ProductOrder(n: nat, x: int, y: int)
    requires x <= y
    ensures n * x <= n * y
  {
  }

  lemma QuotientAtMost(a: nat, d: nat, q: nat)
    requires d > 0 && a <= q * d
    ensures a / d <= q
  {
    assert d * (a / d) <= a;
    assert d * (q + 1) == q * d + d;
    ProductCancel(d, a / d, q + 1);
  }

  lemma ProductCancel(n: nat, x: int, y: int)
    requires n > 0 && n * x < n * y
    ensures x < y
  {
  }

  lemma DivideParts(a: nat, b: nat)
    requires b > 0
    ensures b * (a / b) + a % b == a && 0 <= a % b < b
  {
  }

  /** Quotient and remainder are the only ones. */
  lemma DivideIs(a: nat, b: nat, q: nat, r: nat)
    requires b > 0 && a == q * b + r && r < b
    ensures a / b == q && a % b == r
  {
    DivideParts(a, b);
    var q', r' := a / b, a % b;
    assert b * (q' + 1) == b * q' + b && b * (q + 1) == b * q + b;
    ProductCancel(b, q, q' + 1);
    ProductCancel(b, q', q + 1);
  }
}
