/** The rounding the code shares, and the arithmetic it rests on. */
module Arith {
  /** `round_up`: the least multiple of `to` that is not below x. */
  function RoundUp(x: nat, to: nat): nat
    requires to > 0
  {
    (x + to - 1) / to * to
  }

  lemma MulLess(q: nat, q': nat, d: nat)
    requires q < q'
    ensures q * d + d <= q' * d
  {
    var k := q' - q - 1;
    assert q' == q + 1 + k;
    assert (q + 1 + k) * d == q * d + d + k * d;
    assert k * d >= 0;
  }

  lemma MulUnique(d: nat, q: nat, r: nat, q': nat, r': nat)
    requires q * d + r == q' * d + r' && r < d && r' < d
    ensures q == q' && r == r'
  {
    if q < q' { MulLess(q, q', d); }
    if q' < q { MulLess(q', q, d); }
  }

  lemma DivUnique(x: nat, d: nat, q: nat, r: nat)
    requires d > 0 && x == q * d + r && r < d
    ensures x / d == q && x % d == r
  {
    DivMod(x, d);
    MulUnique(d, q, r, x / d, x % d);
  }

  lemma DivMod(x: nat, d: nat)
    requires d > 0
    ensures x == x / d * d + x % d && x % d < d
  {
  }

  /** A rounded length divides into that many units. */
  lemma RoundUpUnits(x: nat, to: nat)
    requires to > 0
    ensures RoundUp(x, to) / to == (x + to - 1) / to
  {
    DivUnique(RoundUp(x, to), to, (x + to - 1) / to, 0);
  }
}
