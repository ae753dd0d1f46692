/** Quotients and remainders. */
module Arithmetic {
  lemma QuotientIsUnique(q: int, r: int, q': int, r': int, n: int)
    requires q * n + r == q' * n + r' && 0 <= r < n && 0 <= r' < n
    ensures q == q' && r == r'
  {
    assert (q - q') * n == q * n - q' * n;
    assert (q' - q) * n == q' * n - q * n;
    if q > q' { Multiple(q - q', n); } else if q < q' { Multiple(q' - q, n); }
  }

  lemma Multiple(d: int, n: int)
    requires d >= 1 && n > 0
    ensures d * n >= n
  {
    var e := d - 1;
    assert e * n >= 0;
    assert d * n == e * n + n;
  }

  lemma DivMod(x: int, n: int)
    requires n > 0
    ensures x == (x / n) * n + x % n && 0 <= x % n < n
  {
  }

  lemma RemainderIs(x: int, q: int, n: int, r: int)
    requires n > 0 && x == q * n + r && 0 <= r < n
    ensures x / n == q && x % n == r
  {
    DivMod(x, n);
    QuotientIsUnique(x / n, x % n, q, r, n);
  }
}
