/** Small facts about products and quotients of reals. */
module RealArithmetic {

  lemma NonNegativeProduct(a: real, b: real)
    requires a >= 0.0 && b >= 0.0
    ensures a * b >= 0.0
  {
  }

  lemma PositiveProduct(a: real, b: real)
    requires a > 0.0 && b > 0.0
    ensures a * b > 0.0
  {
  }

  lemma SplitProduct(a: real, b: real, sum: real, p: real)
    requires a + b == sum
    ensures sum * p == a * p + b * p
  {
    assert (a + b) * p == a * p + b * p;
  }
}
