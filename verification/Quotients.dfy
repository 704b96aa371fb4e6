/** Division with remainder, for the modules whose arithmetic goes beyond what is linear. */
module Quotients {
  lemma Division(w: int, k: int)
    requires w > 0
    ensures k == (k / w) * w + k % w && 0 <= k % w < w
  {}

  lemma QuotientUnique(w: int, q: int, r: int, p: int, s: int)
    requires 0 <= r < w && 0 <= s < w && q * w + r == p * w + s
    ensures q == p && r == s
  {
    assert (q - p) * w == q * w - p * w == s - r;
    if q > p {
      AtLeast(q - p, w);
    } else if p > q {
      AtLeast(p - q, w);
    }
  }

  lemma AtLeast(d: int, w: int)
    requires d >= 1 && w >= 0
    ensures d * w >= w
  {
    assert d * w == (d - 1) * w + w;
  }

  lemma Position(w: int, quotient: int, index: int)
    requires 0 <= index < w
    ensures (quotient * w + index) / w == quotient && (quotient * w + index) % w == index
  {
    var k := quotient * w + index;
    Division(w, k);
    QuotientUnique(w, quotient, index, k / w, k % w);
  }
}
