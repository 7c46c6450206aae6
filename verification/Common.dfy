/**
 What several parts of the model share: optional values, and facts about products,
 quotients and remainders.
 */
module Common {
  datatype Option<+T> = None | Some(value: T)

  lemma MulMono(a: int, b: int, k: int)
    ensures k >= 0 && a <= b ==> a * k <= b * k
  {
  }

  lemma QuotientAtLeast(n: int, k: int, q: int)
    requires k > 0 && q * k <= n
    ensures q <= n / k
  {
    MulMono(n / k + 1, q, k);
  }

  lemma QuotientBelow(n: int, k: int, q: int)
    requires k > 0 && n < q * k
    ensures n / k < q
  {
    MulMono(q, n / k, k);
  }

  lemma DivMono(a: int, b: int, k: int)
    requires a <= b && k > 0
    ensures a / k <= b / k
  {
    QuotientAtLeast(b, k, a / k);
  }

  /** Quotient and remainder are the only numbers of their kind. */
  lemma DivMod(n: int, q: int, r: int, m: int)
    requires 0 <= r < m && n == q * m + r
    ensures n / m == q && n % m == r
  {
    QuotientAtLeast(n, m, q);
    assert n < (q + 1) * m;
    QuotientBelow(n, m, q + 1);
    assert n == n / m * m + n % m;
  }

  lemma ModShift(x: int, k: int, m: int)
    requires m > 0
    ensures (x + k * m) % m == x % m
  {
    var q := x / m;
    assert x == q * m + x % m;
    assert x + k * m == (q + k) * m + x % m;
    DivMod(x + k * m, q + k, x % m, m);
  }
}
