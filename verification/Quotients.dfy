/** Integer division by a positive number. */
module Quotients {

  lemma QuotientUnique(y: int, s: int, q: int, r: int)
    requires s >= 1 && 0 <= r < s && y == q * s + r
    ensures y / s == q
  {
    var q', r' := y / s, y % s;
    assert y == q' * s + r';
    assert (q - q') * s == r' - r;
    if q - q' >= 1 {
      MonotoneProduct(1, q - q', s);
    } else if q - q' <= -1 {
      MonotoneProduct(1, q' - q, s);
    }
  }

  lemma MonotoneProduct(a: int, b: int, s: int)
    requires a <= b && s >= 0
    ensures a * s <= b * s
  {
    assert (b - a) * s >= 0;
  }
}
