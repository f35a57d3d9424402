/** Facts about products, squares and quotients of reals. */
module Arithmetic {

  /** A product under a name, so that proofs can treat it as a whole. */
  function Product(x: real, y: real): real {
    x * y
  }

  function Square(x: real): real {
    x * x
  }

  function Max(a: real, b: real): real {
    if a < b then b else a
  }

  lemma {:induction false} ProductSign(x: real, y: real)
    ensures x > 0.0 && y > 0.0 ==> x * y > 0.0
    ensures x >= 0.0 && y >= 0.0 ==> x * y >= 0.0
  {
  }

  lemma {:induction false} SquareSign(x: real)
    ensures x * x >= 0.0
  {
  }

  lemma {:induction false} ProductOfSum(k: real, a: real, b: real)
    ensures Product(k, a + b) == Product(k, a) + Product(k, b)
  {
  }

  lemma {:induction false} SquareOfSum(x: real, y: real)
    ensures (x + y) * (x + y) == x * x + 2.0 * (x * y) + y * y
  {
  }

  lemma {:induction false} QuotientTimes(a: real, c: real)
    requires c > 0.0
    ensures a / c * c == a
  {
  }
}
