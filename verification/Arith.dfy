/** Division facts that the solver needs spelled out. */
module Arith {

  lemma ModUnique(h: nat, d: nat, q: nat, r: nat)
    requires d > 0 && r < d && h == q * d + r
    ensures h % d == r
  {
    var q', r' := h / d, h % d;
    assert q' * d + r' == h;
    Euclid(d, q, r, q', r');
  }

  lemma Euclid(d: nat, q: int, r: int, q': int, r': int)
    requires 0 <= r < d && 0 <= r' < d && q * d + r == q' * d + r'
    ensures q == q' && r == r'
  {
    if q < q' {
      AtLeastOnce(q' - q, d);
    } else if q' < q {
      AtLeastOnce(q - q', d);
    }
  }

  lemma AtLeastOnce(k: int, d: nat)
    requires k >= 1
    ensures k * d >= d
  {
    assert k * d == (k - 1) * d + d;
  }
}
