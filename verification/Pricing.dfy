/** Basket-discount arithmetic (internal/order/pricing.go). */
module Pricing {
  import opened Options

  /** Division as Go does it: toward zero. */
  function TruncDiv(a: int, b: int): int
    requires b > 0
  {
    if a >= 0 then a / b else -((-a) / b)
  }

  /** The quotient is the whole part, toward zero on both sides. */
  lemma {:induction false} TruncDivIs(a: int, b: int)
    requires b > 0
    ensures a >= 0 ==> TruncDiv(a, b) * b <= a < (TruncDiv(a, b) + 1) * b
    ensures TruncDiv(-a, b) == -TruncDiv(a, b)
  { }

  function BasketDiscountMinor(baseMinor: int, pct: int): int {
    if pct <= 0 || baseMinor <= 0 then 0
    else
      var p := if pct > 100 then 100 else pct;
      (baseMinor * p + 50) / 100
  }

  function DiscountedUnitMinor(unitPriceMinor: int, pct: int): int {
    unitPriceMinor - BasketDiscountMinor(unitPriceMinor, pct)
  }

  /** The checkout's reading of the optional percentage: clamped to 0..100. */
  function BasketPctOf(pct: Option<int>): int {
    if pct.None? || pct.value <= 0 then 0 else if pct.value > 100 then 100 else pct.value
  }

  /** The cart display's reading of the same pointer: not clamped at all. */
  function RawPct(pct: Option<int>): int {
    if pct.None? then 0 else pct.value
  }

  /** Both readings give the same unit price, for nil, negative and oversized percentages too. */
  lemma {:induction false} ReadingsAgree(price: int, pct: Option<int>)
    ensures DiscountedUnitMinor(price, RawPct(pct)) == DiscountedUnitMinor(price, BasketPctOf(pct))
  { }

  /** The discount is the nearest whole number of minor units, ties going to the buyer. */
  lemma {:induction false} DiscountRoundsHalfUp(base: int, pct: int)
    requires base >= 0 && 0 <= pct <= 100
    ensures -50 < 100 * BasketDiscountMinor(base, pct) - base * pct <= 50
  { }

  /** A discounted price is never negative and never above the list price. */
  lemma {:induction false} DiscountedUnitInRange(base: int, pct: int)
    requires base >= 0
    ensures 0 <= DiscountedUnitMinor(base, pct) <= base
    ensures pct <= 0 ==> DiscountedUnitMinor(base, pct) == base
    ensures pct >= 100 ==> DiscountedUnitMinor(base, pct) == 0
  { }
}
