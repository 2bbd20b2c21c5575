/**
 * The price of an amount of gold from the 24-karat price per gram, scaled by the
 * purity of the chosen karat.
 */
module Gold {
  import opened Numeric

  /** The fraction of pure gold in a karat grade; an unlisted or missing grade counts as pure. */
  function Purity(karat: Option<real>): (f: real)
    ensures 0.75 <= f <= 1.0
    ensures karat == Some(22.0) ==> f == 0.916
    ensures karat == Some(21.0) ==> f == 0.875
    ensures karat == Some(18.0) ==> f == 0.75
    ensures karat != Some(22.0) && karat != Some(21.0) && karat != Some(18.0) ==> f == 1.0
  {
    if karat == Some(22.0) then 0.916
    else if karat == Some(21.0) then 0.875
    else if karat == Some(18.0) then 0.75
    else if karat == Some(24.0) then 1.0
    else 1.0
  }

  /**
   * `calculateGoldPrice(price24k, grams, karat)`: 0 when the price or the weight is
   * falsy, otherwise price * purity * grams rounded, clamped at 0.
   */
  function CalculateGoldPrice(price24k: Option<real>, grams: Option<real>, karat: Option<real>): (total: int)
    ensures total >= 0
    ensures !Truthy(price24k) || !Truthy(grams) ==> total == 0
    ensures Truthy(price24k) && Truthy(grams) ==>
              total == MaxInt(0, Round(price24k.value * Purity(karat) * grams.value))
  {
    if !Truthy(price24k) || !Truthy(grams) then 0
    else
      var adjustedPrice := price24k.value * Purity(karat);
      MaxInt(0, Round(adjustedPrice * grams.value))
  }

  /** At a positive price, more gold never costs less. */
  lemma GoldMonotoneInGrams(price: real, g1: real, g2: real, karat: Option<real>)
    requires price > 0.0 && 0.0 < g1 <= g2
    ensures CalculateGoldPrice(Some(price), Some(g1), karat) <= CalculateGoldPrice(Some(price), Some(g2), karat)
  {
    MulLeft(price * Purity(karat), g1, g2);
    RoundMonotone(price * Purity(karat) * g1, price * Purity(karat) * g2);
  }

  /** price * f * grams grows with the purity factor f. */
  lemma ScaledOrder(price: real, grams: real, f1: real, f2: real)
    requires price > 0.0 && grams > 0.0 && f1 <= f2
    ensures price * f1 * grams <= price * f2 * grams
  {
    MulLeft(price, f1, f2);
    MulLeft(grams, price * f1, price * f2);
  }

  /** For the same price and weight, a purer grade never costs less. */
  lemma GoldMonotoneInPurity(price: real, grams: real, k1: Option<real>, k2: Option<real>)
    requires price > 0.0 && grams > 0.0 && Purity(k1) <= Purity(k2)
    ensures CalculateGoldPrice(Some(price), Some(grams), k1) <= CalculateGoldPrice(Some(price), Some(grams), k2)
  {
    var f1, f2 := Purity(k1), Purity(k2);
    ScaledOrder(price, grams, f1, f2);
    RoundMonotone(price * f1 * grams, price * f2 * grams);
  }

  /** 18k < 21k < 22k < 24k, and no grade is purer than 24k. */
  lemma PurityOrder()
    ensures Purity(Some(18.0)) < Purity(Some(21.0)) < Purity(Some(22.0)) < Purity(Some(24.0))
    ensures forall k :: Purity(k) <= Purity(Some(24.0))
  {
  }

  /** The rounded price at a purity between 0.75 and 1 lies between those of 75% and of pure gold. */
  lemma RoundedBetween(price: real, grams: real, f: real)
    requires price > 0.0 && grams > 0.0 && 0.75 <= f <= 1.0
    ensures Round(0.75 * price * grams) <= Round(price * f * grams) <= Round(price * grams)
  {
    assert price * f * grams <= price * grams by {
      MulLeft(price * grams, f, 1.0);
    }
    assert 0.75 * price * grams <= price * f * grams by {
      MulLeft(price * grams, 0.75, f);
    }
    RoundMonotone(price * f * grams, price * grams);
    RoundMonotone(0.75 * price * grams, price * f * grams);
  }

  /** A positive price and weight never cost more than the same weight of pure gold, nor less than 75% of it. */
  lemma GoldWithinPureBounds(price: real, grams: real, karat: Option<real>)
    requires price > 0.0 && grams > 0.0
    ensures CalculateGoldPrice(Some(price), Some(grams), karat) <= Round(price * grams)
    ensures CalculateGoldPrice(Some(price), Some(grams), karat) >= Round(0.75 * price * grams)
  {
    RoundedBetween(price, grams, Purity(karat));
  }

  /** 10 grams of 22-karat gold at 7,000 a gram cost 64,120; without a price or a weight, 0. */
  lemma GoldExamples()
    ensures CalculateGoldPrice(Some(7000.0), Some(10.0), Some(22.0)) == 64120
    ensures CalculateGoldPrice(Some(7000.0), Some(10.0), Some(14.0)) == 70000
    ensures CalculateGoldPrice(Some(7000.0), Some(10.0), None) == 70000
    ensures CalculateGoldPrice(Some(7000.0), None, Some(22.0)) == 0
    ensures CalculateGoldPrice(Some(0.0), Some(10.0), Some(22.0)) == 0
  {
    RoundOfInt(64120);
    RoundOfInt(70000);
  }
}
