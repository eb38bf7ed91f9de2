/**
 * The pricing rule of the re-pricing action: which gold rate applies to a
 * product, and the price formula with its fixed 3% GST and `Math.round`.
 * Arithmetic is exact (real numbers), not IEEE doubles.
 */
module Pricing {
  import opened Wrappers

  /** The stored rate record: one rate per gold purity. */
  datatype RateRecord = RateRecord(goldRate22K: real, goldRate18K: real)

  /** The GST percentage, fixed in the source. */
  const GstRate: real := 3.0

  predicate Tagged22K(tags: seq<string>) {
    "Gold_22K" in tags || "gold_22k" in tags
  }

  predicate Tagged18K(tags: seq<string>) {
    "Gold_18K" in tags || "gold_18k" in tags
  }

  /**
   * The rate a product's tags select, or `None` when the product carries
   * no purity tag and is skipped. The 22K test comes first.
   */
  function SelectRate(tags: seq<string>, rates: RateRecord): (rate: Option<real>)
    ensures rate.None? <==> !Tagged22K(tags) && !Tagged18K(tags)
    ensures rate.Some? ==> rate.value in {rates.goldRate22K, rates.goldRate18K}
  {
    if Tagged22K(tags) then Some(rates.goldRate22K)
    else if Tagged18K(tags) then Some(rates.goldRate18K)
    else None
  }

  /** A product tagged with both purities is priced at the 22K rate. */
  lemma BothPuritiesTake22K(tags: seq<string>, rates: RateRecord)
    requires Tagged22K(tags) && Tagged18K(tags)
    ensures SelectRate(tags, rates) == Some(rates.goldRate22K)
  {
  }

  /** A product tagged 18K only is priced at the 18K rate. */
  lemma Only18KTakes18K(tags: seq<string>, rates: RateRecord)
    requires !Tagged22K(tags) && Tagged18K(tags)
    ensures SelectRate(tags, rates) == Some(rates.goldRate18K)
  {
  }

  /** Tags are matched by exact spelling: an upper-case tag alone selects no rate. */
  lemma OtherSpellingsSelectNothing(rates: RateRecord)
    ensures SelectRate(["GOLD_22K", "Gold_22k", "GOLD_18K"], rates) == None
  {
  }

  /**
   * `Math.round`: the integer nearest to `x`, ties going up.
   */
  function RoundHalfUp(x: real): (n: int)
    ensures n as real - 0.5 <= x < n as real + 0.5
  {
    (x + 0.5).Floor
  }

  /** The rounding is the only integer n with n - 1/2 <= x < n + 1/2; a tie goes to the upper integer. */
  lemma RoundHalfUpUnique(x: real, n: int)
    requires n as real - 0.5 <= x < n as real + 0.5
    ensures RoundHalfUp(x) == n
  {
    var m := RoundHalfUp(x);
    assert m as real - 0.5 <= x < m as real + 0.5;
    assert n - 1 < m < n + 1;
  }

  /** An exact half rounds up: `k + 0.5` becomes `k + 1`. */
  lemma TiesRoundUp(k: int)
    ensures RoundHalfUp(k as real + 0.5) == k + 1
  {
    RoundHalfUpUnique(k as real + 0.5, k + 1);
  }

  /** Rounding never decreases when its argument grows. */
  lemma RoundHalfUpMonotone(x: real, y: real)
    requires x <= y
    ensures RoundHalfUp(x) <= RoundHalfUp(y)
  {
    var m, n := RoundHalfUp(x), RoundHalfUp(y);
    assert m as real - 0.5 <= x && y < n as real + 0.5;
  }

  /**
   * The price before rounding, computed in the source's order: gold value,
   * making amount on gold plus stone, GST on everything.
   */
  function PreRoundTotal(goldRate: real, goldWeight: real, makingCharges: real, stonePrice: real): (total: real)
    ensures makingCharges == 0.0 && stonePrice == 0.0 ==> total == goldRate * goldWeight * 103.0 / 100.0
  {
    var goldActualPrice := goldRate * goldWeight;
    var goldMakingAmount := (stonePrice + goldActualPrice) * makingCharges / 100.0;
    var gstAmount := (stonePrice + goldMakingAmount + goldActualPrice) * GstRate / 100.0;
    goldActualPrice + goldMakingAmount + stonePrice + gstAmount
  }

  /** The price written to the variant: the total rounded half-up. */
  function NewPrice(goldRate: real, goldWeight: real, makingCharges: real, stonePrice: real): (price: int)
    ensures var total := PreRoundTotal(goldRate, goldWeight, makingCharges, stonePrice);
      price as real - 0.5 <= total < price as real + 0.5
  {
    RoundHalfUp(PreRoundTotal(goldRate, goldWeight, makingCharges, stonePrice))
  }

  /**
   * The total in closed form: gold value plus stone, with the making charge
   * and then 3% GST applied as factors.
   */
  lemma TotalClosedForm(goldRate: real, goldWeight: real, makingCharges: real, stonePrice: real)
    ensures PreRoundTotal(goldRate, goldWeight, makingCharges, stonePrice)
         == (goldRate * goldWeight + stonePrice) * (1.0 + makingCharges / 100.0) * 103.0 / 100.0
  {
    var a := goldRate * goldWeight;
    var m := (stonePrice + a) * makingCharges / 100.0;
    assert stonePrice + m + a == (a + stonePrice) * (1.0 + makingCharges / 100.0);
  }

  /** Rate 6000, weight 5, making 10% and stone 200 give 34216.6, so the price 34217. */
  lemma WorkedExample()
    ensures PreRoundTotal(6000.0, 5.0, 10.0, 200.0) == 34216.6
    ensures NewPrice(6000.0, 5.0, 10.0, 200.0) == 34217
  {
    RoundHalfUpUnique(34216.6, 34217);
  }

  /** With no negative input the price is never negative. */
  lemma PriceNonNegative(goldRate: real, goldWeight: real, makingCharges: real, stonePrice: real)
    requires goldRate >= 0.0 && goldWeight >= 0.0 && makingCharges >= 0.0 && stonePrice >= 0.0
    ensures NewPrice(goldRate, goldWeight, makingCharges, stonePrice) >= 0
  {
    TotalClosedForm(goldRate, goldWeight, makingCharges, stonePrice);
    var base := goldRate * goldWeight + stonePrice;
    var factor := (1.0 + makingCharges / 100.0) * 103.0 / 100.0;
    assert base >= 0.0 && factor > 0.0;
    assert base * factor >= 0.0;
    RoundHalfUpMonotone(0.0, PreRoundTotal(goldRate, goldWeight, makingCharges, stonePrice));
    RoundHalfUpUnique(0.0, 0);
  }

  /**
   * A higher gold rate never lowers a price, as long as the weight is not
   * negative and the making charge is not below -100%.
   */
  lemma PriceMonotoneInRate(low: real, high: real, goldWeight: real, makingCharges: real, stonePrice: real)
    requires low <= high && goldWeight >= 0.0 && makingCharges >= -100.0
    ensures NewPrice(low, goldWeight, makingCharges, stonePrice) <= NewPrice(high, goldWeight, makingCharges, stonePrice)
  {
    TotalClosedForm(low, goldWeight, makingCharges, stonePrice);
    TotalClosedForm(high, goldWeight, makingCharges, stonePrice);
    assert (high - low) * goldWeight >= 0.0;
    var factor := (1.0 + makingCharges / 100.0) * 103.0 / 100.0;
    assert factor >= 0.0;
    var b1, b2 := low * goldWeight + stonePrice, high * goldWeight + stonePrice;
    assert b1 <= b2;
    assert (b2 - b1) * factor >= 0.0;
    assert b1 * factor <= b2 * factor;
    RoundHalfUpMonotone(PreRoundTotal(low, goldWeight, makingCharges, stonePrice),
                        PreRoundTotal(high, goldWeight, makingCharges, stonePrice));
  }
}
