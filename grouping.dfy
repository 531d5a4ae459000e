/** Exact decimals and the price-grouping expression of the order book.

    Prices and sizes are decimals held as integers in fixed-point units of
    10^-8 (the feed's eight decimal places), so every sum, difference and
    comparison is exact.  `Group` is the expression
    `price.shiftedBy(-g).dp(8).shiftedBy(g)` with `g = 8`: it rounds the price
    to eight decimals after shifting it `g` places right, so in fixed-point
    units it rounds to the nearest multiple of 10^g units (a whole currency
    unit), ties away from zero (BigNumber's ROUND_HALF_UP). */
module Grouping {

  /** `this.grouping`: the number of places the price is shifted before rounding. */
  const grouping: nat := 8

  /** 10^grouping fixed-point units: the width of one price level. */
  const Quantum: int := 100_000_000

  /** Half a level width; a price exactly half-way rounds away from zero. */
  const Half: int := 50_000_000

  /** The grouped price under which an order of price `p` is filed.  The
      result is the multiple of `Quantum` nearest to `p`; a tie goes to the
      multiple farther from zero. */
  function Group(p: int): (g: int)
    ensures g % Quantum == 0
    ensures p >= 0 ==> g - Half <= p < g + Half
    ensures p < 0 ==> g - Half < p <= g + Half
  {
    if p >= 0 then (p + Half) / Quantum * Quantum
    else -((-p + Half) / Quantum * Quantum)
  }

  /** Only one multiple of `Quantum` lies in the rounding window of a
      non-negative price, so `Group` is the nearest multiple. */
  lemma GroupIsNearest(p: int, m: int)
    requires m % Quantum == 0
    requires p >= 0 && m - Half <= p < m + Half
    ensures Group(p) == m
  {
    var g := Group(p);
    assert g - Half <= p < g + Half;
    assert -Quantum < g - m < Quantum;
    assert (g - m) % Quantum == 0;
  }

  /** The same for a negative price, whose window is closed on the right. */
  lemma GroupIsNearestNegative(p: int, m: int)
    requires m % Quantum == 0
    requires p < 0 && m - Half < p <= m + Half
    ensures Group(p) == m
  {
    var g := Group(p);
    assert -Quantum < g - m < Quantum;
    assert (g - m) % Quantum == 0;
  }

  /** Grouping is idempotent: a grouped price is its own group. */
  lemma GroupIdempotent(p: int)
    ensures Group(Group(p)) == Group(p)
  {
    var g := Group(p);
    if g >= 0 {
      GroupIsNearest(g, g);
    } else {
      GroupIsNearestNegative(g, g);
    }
  }

  /** Grouping preserves order, so ascending raw prices land in ascending
      (or equal) levels. */
  lemma GroupMonotonic(p: int, q: int)
    requires p <= q
    ensures Group(p) <= Group(q)
  {
  }

  /** With `grouping == 8` a price of 1234.567 is filed under 1235, not under
      1230 as the comment in the source claims. */
  lemma GroupExample()
    ensures Group(123_456_700_000) == 123_500_000_000
  {
    GroupIsNearest(123_456_700_000, 123_500_000_000);
  }
}
