/** A few facts of real arithmetic that the solver does not find alone. */
module Reals {

  function Min(a: real, b: real): real { if a <= b then a else b }

  function Max(a: real, b: real): real { if a >= b then a else b }

  lemma Product(a: real, b: real)
    requires a >= 0.0 && b >= 0.0
    ensures a * b >= 0.0
  {
  }

  lemma ProductPositive(a: real, b: real)
    requires a > 0.0 && b > 0.0
    ensures a * b > 0.0
  {
  }

  /** Comparing with a quotient is comparing with the multiplied-out numbers. */
  lemma Quotient(x: real, y: real, m: real)
    requires m > 0.0
    ensures x * m <= y <==> x <= y / m
    ensures x * m >= y <==> x >= y / m
  {
    var q := y / m;
    assert q * m == y;
    if x > q {
      ProductPositive(x - q, m);
      assert (x - q) * m == x * m - q * m;
    } else if x < q {
      ProductPositive(q - x, m);
      assert (q - x) * m == q * m - x * m;
    }
  }
}
