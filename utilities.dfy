/**
 * Yearly income tax on a monthly salary: a tax-free exemption, then three progressive
 * slabs walked by a loop that takes each slab's share off the taxable amount.
 */
module Utilities {
  import opened Numeric

  /** The tax-free part of a yearly salary. */
  const Exemption: real := 350000.0

  /** How much of the taxable amount a slab can hold. */
  datatype Limit = Upto(amount: real) | Unlimited

  datatype Slab = Slab(limit: Limit, rate: real)

  /** Next 100,000 at 5%, next 300,000 at 10%, the rest at 15%. */
  const Slabs: seq<Slab> := [Slab(Upto(100000.0), 0.05), Slab(Upto(300000.0), 0.10), Slab(Unlimited, 0.15)]

  /** The share of `taxable` a slab takes: `Math.min(taxable, slab.limit)`. */
  function InSlab(taxable: real, limit: Limit): (amount: real)
    ensures amount <= taxable
    ensures limit.Upto? && limit.amount >= 0.0 && taxable >= 0.0 ==> amount >= 0.0
    ensures limit.Unlimited? ==> amount == taxable
  {
    match limit
    case Upto(a) => Min(taxable, a)
    case Unlimited => taxable
  }

  /** The tax on the part of the taxable amount that falls in a slab. */
  function Charge(amount: real, slab: Slab): real
  {
    amount * slab.rate
  }

  lemma ChargeNonNegative(amount: real, slab: Slab)
    ensures amount >= 0.0 && slab.rate >= 0.0 ==> Charge(amount, slab) >= 0.0
  {
    if amount >= 0.0 && slab.rate >= 0.0 {
      MulLeft(slab.rate, 0.0, amount);
    }
  }

  /** The tax the slab loop charges on `taxable` from `slabs` on, stopping once nothing is left. */
  function SlabTax(taxable: real, slabs: seq<Slab>): (tax: real)
    ensures taxable <= 0.0 ==> tax == 0.0
    decreases |slabs|
  {
    if slabs == [] || taxable <= 0.0 then 0.0
    else
      var amount := InSlab(taxable, slabs[0].limit);
      Charge(amount, slabs[0]) + SlabTax(taxable - amount, slabs[1..])
  }

  /** Slabs with non-negative rates and limits never charge a negative tax. */
  lemma {:induction false} SlabTaxNonNegative(taxable: real, slabs: seq<Slab>)
    requires forall k :: 0 <= k < |slabs| ==> slabs[k].rate >= 0.0 && (slabs[k].limit.Upto? ==> slabs[k].limit.amount >= 0.0)
    ensures SlabTax(taxable, slabs) >= 0.0
    decreases |slabs|
  {
    if slabs != [] && taxable > 0.0 {
      SlabTaxNonNegative(taxable - InSlab(taxable, slabs[0].limit), slabs[1..]);
      ChargeNonNegative(InSlab(taxable, slabs[0].limit), slabs[0]);
    }
  }

  /** One turn of the slab loop. */
  lemma SlabTaxStep(taxable: real, slabs: seq<Slab>, k: nat)
    requires k < |slabs| && taxable > 0.0
    ensures SlabTax(taxable, slabs[k..])
         == Charge(InSlab(taxable, slabs[k].limit), slabs[k])
          + SlabTax(taxable - InSlab(taxable, slabs[k].limit), slabs[k + 1..])
  {
    assert slabs[k..][0] == slabs[k] && slabs[k..][1..] == slabs[k + 1..];
  }

  /** The amount the slab loop charges in each slab it reaches. */
  function Charged(taxable: real, slabs: seq<Slab>): seq<real>
    decreases |slabs|
  {
    if slabs == [] || taxable <= 0.0 then []
    else
      var amount := InSlab(taxable, slabs[0].limit);
      [amount] + Charged(taxable - amount, slabs[1..])
  }

  function Sum(xs: seq<real>): real
  {
    if xs == [] then 0.0 else Sum(xs[..|xs| - 1]) + xs[|xs| - 1]
  }

  /**
   * The three-band tax in closed form: 5% of the first 100,000, 10% of the next
   * 300,000 and 15% of everything above 400,000.
   */
  function BracketTax(t: real): (x: real)
    ensures t >= 0.0 ==> 0.0 <= x <= 0.15 * t
  {
    0.05 * Min(t, 100000.0) + 0.10 * Min(Max(t - 100000.0, 0.0), 300000.0) + 0.15 * Max(t - 400000.0, 0.0)
  }

  /** The yearly tax on a monthly salary. */
  function SalaryTax(monthlySalary: real): (tax: int)
    ensures tax >= 0
    ensures monthlySalary * 12.0 <= Exemption ==> tax == 0
    ensures tax <= Round(0.15 * Max(monthlySalary * 12.0 - Exemption, 0.0))
  {
    var annual := monthlySalary * 12.0;
    if annual <= Exemption then 0
    else
      RoundMonotone(0.0, BracketTax(annual - Exemption));
      RoundMonotone(BracketTax(annual - Exemption), 0.15 * (annual - Exemption));
      Round(BracketTax(annual - Exemption))
  }

  /** The slab loop and the closed form agree on every positive taxable amount. */
  lemma SlabTaxClosedForm(t: real)
    requires t > 0.0
    ensures SlabTax(t, Slabs) == BracketTax(t)
  {
    var a0 := Min(t, 100000.0);
    var t1 := t - a0;
    assert Slabs[1..][1..] == [Slab(Unlimited, 0.15)];
    assert Slabs[1..][1..][1..] == [];
    if t1 <= 0.0 {
      assert SlabTax(t, Slabs) == a0 * 0.05;
    } else {
      var a1 := Min(t1, 300000.0);
      var t2 := t1 - a1;
      assert SlabTax(t1, Slabs[1..]) == a1 * 0.10 + SlabTax(t2, Slabs[1..][1..]);
      if t2 > 0.0 {
        assert SlabTax(t2, Slabs[1..][1..]) == t2 * 0.15 + SlabTax(0.0, []);
      }
    }
  }

  /** The amounts charged are never negative and add up to the whole taxable amount. */
  lemma {:induction false} ChargedSumsToTaxable(t: real, slabs: seq<Slab>)
    requires t > 0.0
    requires forall k :: 0 <= k < |slabs| ==> slabs[k].limit.Upto? ==> slabs[k].limit.amount >= 0.0
    requires |slabs| > 0 && slabs[|slabs| - 1].limit.Unlimited?
    ensures Sum(Charged(t, slabs)) == t
    ensures forall a :: a in Charged(t, slabs) ==> a >= 0.0
    decreases |slabs|
  {
    var amount := InSlab(t, slabs[0].limit);
    var rest := slabs[1..];
    assert Charged(t, slabs) == [amount] + Charged(t - amount, rest);
    if t - amount > 0.0 {
      ChargedSumsToTaxable(t - amount, rest);
      SumCons(amount, Charged(t - amount, rest));
    } else {
      assert t - amount == 0.0;
      assert Charged(t, slabs) == [amount];
      assert Sum([amount]) == Sum([]) + amount;
    }
  }

  lemma {:induction false} SumCons(x: real, xs: seq<real>)
    ensures Sum([x] + xs) == x + Sum(xs)
  {
    if xs != [] {
      var ys := [x] + xs;
      assert ys[..|ys| - 1] == [x] + xs[..|xs| - 1];
      SumCons(x, xs[..|xs| - 1]);
    }
  }

  /**
   * `calculateSalaryTax`: walks the slabs, taking each one's share off `taxable` and
   * adding its tax, until nothing taxable is left.
   */
  method CalculateSalaryTax(monthlySalary: real) returns (tax: int)
    ensures monthlySalary * 12.0 <= Exemption ==> tax == 0
    ensures monthlySalary * 12.0 > Exemption ==> tax == Round(BracketTax(monthlySalary * 12.0 - Exemption))
    ensures tax == SalaryTax(monthlySalary)
  {
    var annualSalary := monthlySalary * 12.0;
    if annualSalary <= Exemption {
      return 0;
    }
    var taxable := annualSalary - Exemption;
    ghost var total := taxable;
    var acc := 0.0;
    var k := 0;
    while k < |Slabs|
      invariant 0 <= k <= |Slabs|
      invariant taxable >= 0.0
      invariant acc + SlabTax(taxable, Slabs[k..]) == SlabTax(total, Slabs)
    {
      if taxable <= 0.0 {
        break;
      }
      var amountInSlab := InSlab(taxable, Slabs[k].limit);
      assert acc + Charge(amountInSlab, Slabs[k]) + SlabTax(taxable - amountInSlab, Slabs[k + 1..]) == SlabTax(total, Slabs) by {
        SlabTaxStep(taxable, Slabs, k);
      }
      acc := acc + Charge(amountInSlab, Slabs[k]);
      taxable := taxable - amountInSlab;
      k := k + 1;
    }
    assert acc == BracketTax(total) by {
      assert SlabTax(taxable, Slabs[k..]) == 0.0;
      SlabTaxClosedForm(total);
    }
    tax := Round(acc);
  }

  /** The closed form grows with the taxable amount. */
  lemma BracketTaxMonotone(s: real, t: real)
    requires s <= t
    ensures BracketTax(s) <= BracketTax(t)
  {
  }

  /** A higher salary never pays less tax. */
  lemma SalaryTaxMonotone(a: real, b: real)
    requires a <= b
    ensures SalaryTax(a) <= SalaryTax(b)
  {
    if a * 12.0 > Exemption {
      BracketTaxMonotone(a * 12.0 - Exemption, b * 12.0 - Exemption);
      RoundMonotone(BracketTax(a * 12.0 - Exemption), BracketTax(b * 12.0 - Exemption));
    }
  }

  /** A salary of 50,000 a month leaves 250,000 taxable: 5,000 + 15,000. */
  lemma SalaryTaxExamples()
    ensures SalaryTax(50000.0) == 20000
    ensures SalaryTax(29000.0) == 0
    ensures SalaryTax(100000.0) == 102500
  {
    RoundOfInt(20000);
    RoundOfInt(102500);
  }
}
