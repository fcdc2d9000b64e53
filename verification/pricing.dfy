/**
 The tiered discount of `Order`, as functions of the subtotal. Amounts are
 exact: the subtotal is a whole number of rupiah and the discount and total
 are rationals, where the source uses doubles.
 */
module Pricing {

  const DiscountThreshold1: int := 300000
  const DiscountThreshold2: int := 500000
  const DiscountRate1: real := 0.05
  const DiscountRate2: real := 0.10

  /** The discount tiers: the rule that both the discount and its
      description follow. */
  datatype Tier = NoDiscount | FivePercent | TenPercent

  /** Reference rule: each tier starts at its threshold, inclusive. */
  function TierOf(subtotal: int): Tier {
    if subtotal < 300000 then NoDiscount
    else if subtotal < 500000 then FivePercent
    else TenPercent
  }

  function RateOf(t: Tier): real {
    match t
    case NoDiscount => 0.0
    case FivePercent => 0.05
    case TenPercent => 0.10
  }

  /** `getDiscount()` for a given subtotal. */
  function Discount(subtotal: int): (d: real)
    ensures d == subtotal as real * RateOf(TierOf(subtotal))
    ensures subtotal >= 0 ==> 0.0 <= d <= subtotal as real * 0.10
    ensures d > 0.0 <==> subtotal >= DiscountThreshold1
  {
    if subtotal >= DiscountThreshold2 then subtotal as real * DiscountRate2
    else if subtotal >= DiscountThreshold1 then subtotal as real * DiscountRate1
    else 0.0
  }

  /** `getTotal()` for a given subtotal. */
  function Total(subtotal: int): (t: real)
    ensures t == subtotal as real * (1.0 - RateOf(TierOf(subtotal)))
    ensures subtotal >= 0 ==> subtotal as real * 0.9 <= t <= subtotal as real
    ensures subtotal < DiscountThreshold1 ==> t == subtotal as real
  {
    subtotal as real - Discount(subtotal)
  }

  /** `getDiscountDescription()` for a given subtotal. */
  function DiscountDescription(subtotal: int): (s: string)
    ensures s == "10% Discount Applied" <==> TierOf(subtotal) == TenPercent
    ensures s == "5% Discount Applied" <==> TierOf(subtotal) == FivePercent
    ensures s == "" <==> TierOf(subtotal) == NoDiscount
  {
    if subtotal >= DiscountThreshold2 then "10% Discount Applied"
    else if subtotal >= DiscountThreshold1 then "5% Discount Applied"
    else ""
  }

  /** The description is shown exactly when a discount is taken off, and it
      names the rate that was applied. */
  lemma DescriptionMatchesDiscount(subtotal: int)
    ensures DiscountDescription(subtotal) != "" <==> Discount(subtotal) > 0.0
    ensures Discount(subtotal) == subtotal as real * 0.10
            <== DiscountDescription(subtotal) == "10% Discount Applied"
    ensures Discount(subtotal) == subtotal as real * 0.05
            <== DiscountDescription(subtotal) == "5% Discount Applied"
  {
  }

  /** The tiers are not monotone in what the customer pays: crossing a
      threshold can lower the total. */
  lemma ThresholdLowersTotal()
    ensures Total(299999) == 299999.0 && Total(300000) == 285000.0
    ensures Total(499999) > Total(500000)
  {
  }
}
