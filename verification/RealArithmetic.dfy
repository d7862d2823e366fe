/** Products and quotients of reals, one step at a time. */
module RealArithmetic {
  lemma ProductNotNegative(x: real, y: real)
    requires x >= 0.0 && y >= 0.0
    ensures x * y >= 0.0
  {
  }

  lemma QuotientTimes(x: real, n: real)
    requires n != 0.0
    ensures x / n * n == x
  {
  }

  lemma QuotientWithin(x: real, n: real, lo: real, hi: real)
    requires n > 0.0 && lo * n <= x <= hi * n
    ensures lo <= x / n <= hi
  {
    var q := x / n;
    QuotientTimes(x, n);
    if q < lo {
      StrictProduct(q, lo, n);
    }
    if hi < q {
      StrictProduct(hi, q, n);
    }
  }

  lemma StrictProduct(x: real, y: real, k: real)
    requires x < y && k > 0.0
    ensures x * k < y * k
  {
    assert (y - x) * k > 0.0;
    assert (y - x) * k == y * k - x * k;
  }
}
