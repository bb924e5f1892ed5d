/** Powers, and facts that keep products of variables out of larger proofs. */
module Arithmetic {
  lemma PositiveFactor(a: int, b: int)
    requires 0 < a && 0 < a * b
    ensures 0 < b
  {
  }

  lemma NonNegativeFactor(a: int, b: int)
    requires 0 < a && 0 <= a * b
    ensures 0 <= b
  {
  }

  lemma CancelFactor(d: int, x: int, y: int)
    requires 0 < d && x * d <= d * y
    ensures x <= y
  {
    assert 0 <= d * (y - x);
    NonNegativeFactor(d, y - x);
  }

  lemma CancelStrictFactor(d: int, x: int, y: int)
    requires 0 < d && d * x < d * y
    ensures x < y
  {
    assert 0 < d * (y - x);
    PositiveFactor(d, y - x);
  }

  lemma Distributes(m: int, x: int, y: int)
    ensures m * (x + y) == m * x + m * y
  {
  }

  lemma ProductOrder(m: nat, x: int, y: int)
    requires x <= y
    ensures m * x <= m * y
  {
  }

  lemma NonNegativeProduct(x: int, y: int)
    requires 0 <= x && 0 <= y
    ensures 0 <= x * y
  {
  }

  function Power(base: nat, k: nat): (r: nat)
    ensures 0 < base ==> 0 < r
  {
    if k == 0 then 1 else Power(base, k - 1) * base
  }
}
