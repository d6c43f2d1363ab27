/** Euclidean division, for callers that know quotient and remainder. */
module Division {

  lemma TimesAtLeast(d: int, k: int)
    requires d > 0
    ensures (k >= 1 ==> d * k >= d) && (k <= -1 ==> d * k <= -d)
  {
  }

  lemma Quotient(y: int, d: int, q: int, r: int)
    requires 0 <= r < d && y == d * q + r
    ensures y / d == q && y % d == r
  {
    var k := q - y / d;
    TimesAtLeast(d, k);
    assert d * k == d * q - d * (y / d);
  }
}
