/** Division: quotients and remainders are unique. */
module Arithmetic {
  lemma QuotientIs(t: int, n: int, q: int, r: int)
    requires 0 <= r < n && t == q * n + r
    ensures t / n == q && t % n == r
  {
    assert (t / n - q) * n == r - t % n;
    Multiples(t / n - q, n);
  }

  lemma Multiples(d: int, n: int)
    requires n > 0
    ensures d >= 1 ==> d * n >= n
    ensures d <= -1 ==> d * n <= -n
  {
    if d >= 1 {
      assert d * n == n + (d - 1) * n;
    }
    if d <= -1 {
      assert d * n == -n + (d + 1) * n;
    }
  }
}
