/** Facts about products and quotients. */
module Arithmetic {
  function Min(a: int, b: int): int {
    if a < b then a else b
  }

  function Max(a: int, b: int): int {
    if a < b then b else a
  }

  lemma AtLeastOnce(d: int, k: int)
    requires d >= 1 && k >= 1
    ensures d * k >= d
  {
  }

  /** A quotient is determined by its remainder's range. */
  lemma QuotientUnique(d: int, q: int, r: int, q': int, r': int)
    requires d >= 1 && d * q + r == d * q' + r' && 0 <= r < d && 0 <= r' < d
    ensures q == q'
  {
    assert d * (q - q') == r' - r && d * (q' - q) == r - r';
    if q > q' {
      AtLeastOnce(d, q - q');
    } else if q < q' {
      AtLeastOnce(d, q' - q);
    }
  }

  lemma QuotientIs(p: nat, i: nat, x: int)
    requires p > 0 && p * i <= x < p * i + p
    ensures x / p == i
  {
    QuotientUnique(p, i, x - p * i, x / p, x % p);
  }

  lemma MulLess(p: nat, i: nat, j: nat)
    requires i <= j
    ensures p * i <= p * j
    ensures i < j ==> p * i + p <= p * j
  {
    if i < j {
      assert p * j == p * (i + 1) + p * (j - i - 1);
    }
  }

  lemma MulNotPositive(p: nat, q: int)
    requires q <= 0
    ensures p * q <= 0
  {
  }
}
