/** Small facts about products and quotients. */
module Arithmetic {
  lemma {:induction false} ProductGrows(a: nat, b: nat, factor: nat)
    requires a <= b
    ensures a * factor <= b * factor
  {
    assert b * factor == a * factor + (b - a) * factor;
  }

  lemma QuotientAtLeast(q: nat, divisor: nat, n: nat)
    requires divisor > 0 && q * divisor <= n
    ensures q <= n / divisor
  {
    var d := n / divisor;
    assert n < (d + 1) * divisor;
    if d < q {
      ProductGrows(d + 1, q, divisor);
      assert false;
    }
  }
}
