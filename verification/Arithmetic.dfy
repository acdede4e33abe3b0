/** Facts about integer multiples, quotients and `Math.floor` that linear reasoning does not reach. */
module Arithmetic {

  lemma MultipleBounds(k: int, d: int)
    requires d > 0
    ensures k >= 1 ==> k * d >= d
    ensures k <= 0 ==> k * d <= 0
    ensures k <= -1 ==> k * d <= -d
  {}

  lemma EuclideanUnique(n: int, d: int, q: int, r: int)
    requires d > 0 && n == q * d + r && 0 <= r < d
    ensures n / d == q && n % d == r
  {
    assert n == (n / d) * d + n % d;
    assert (q - n / d) * d == n % d - r;
    MultipleBounds(q - n / d, d);
  }

  lemma DivisionMonotone(x: int, y: int, d: int)
    requires d > 0 && x <= y
    ensures x / d <= y / d
  {
    var p, q := x / d, y / d;
    assert x == p * d + x % d && y == q * d + y % d;
    assert (p - q) * d == p * d - q * d;
    MultipleBounds(p - q, d);
  }
}
