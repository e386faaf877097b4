/** Counting, and facts about products and quotients of variables. */
module Arithmetic {

  function Bit(b: bool): nat { if b then 1 else 0 }

  lemma AtLeastOnce(a: int, w: nat)
    requires a >= 1
    ensures a * w >= w
  {}

  lemma DivModUnique(x: nat, w: nat, q: nat, r: nat)
    requires r < w && x == q * w + r
    ensures x / w == q && x % w == r
  {
    var q', r' := x / w, x % w;
    assert q' * w + r' == q * w + r;
    assert (q - q') * w == q * w - q' * w == -((q' - q) * w);
    if q > q' {
      AtLeastOnce(q - q', w);
    } else if q < q' {
      AtLeastOnce(q' - q, w);
    }
  }
}
