/**
 * Bank-product formulas: DPS (a monthly recurring deposit) maturity, FDR (a fixed lump
 * sum) compound growth, and EMI (the equated monthly instalment of a loan). Each
 * returns an all-zero record when an input is falsy, and clamps its rounded outputs
 * at 0.
 */
module Finance {
  import opened Numeric

  /** Whether any of the three inputs is falsy (0 or NaN), which makes a formula return zeros. */
  predicate AnyFalsy(amount: Option<real>, rate: Option<real>, years: Option<nat>)
  {
    !Truthy(amount) || !Truthy(rate) || years.None? || years.value == 0
  }

  /** The monthly rate as a fraction: r / 12 / 100. */
  function MonthlyRate(r: real): real
  {
    r / 12.0 / 100.0
  }

  // ---------------------------------------------------------------------------
  // DPS

  datatype DpsResult = DpsResult(maturity: int, deposit: int, profit: int)

  /** DPS maturity before rounding: P * ((1 + i)^n - 1) / i * (1 + i). */
  function DpsMaturity(p: real, i: real, n: nat): (m: real)
    requires i != 0.0
    ensures n == 0 ==> m == 0.0
    ensures n == 1 ==> m == p * (1.0 + i)
  {
    assert Pow(1.0 + i, 1) == 1.0 + i;
    assert (1.0 + i - 1.0) / i == 1.0;
    p * ((Pow(1.0 + i, n) - 1.0) / i) * (1.0 + i)
  }

  /** `calculateDPS(P, r, t)` with a monthly deposit P, a yearly rate r percent, over t whole years. */
  function CalculateDps(monthlyDeposit: Option<real>, interestRate: Option<real>, years: Option<nat>): (d: DpsResult)
    ensures d.maturity >= 0 && d.deposit >= 0 && d.profit >= 0
    ensures AnyFalsy(monthlyDeposit, interestRate, years) ==> d == DpsResult(0, 0, 0)
    ensures !AnyFalsy(monthlyDeposit, interestRate, years) ==>
              d.deposit == MaxInt(0, Round(monthlyDeposit.value * ((12 * years.value) as real)))
  {
    if AnyFalsy(monthlyDeposit, interestRate, years) then DpsResult(0, 0, 0)
    else
      var p, r, n := monthlyDeposit.value, interestRate.value, 12 * years.value;
      var i := MonthlyRate(r);
      var maturity := DpsMaturity(p, i, n);
      var deposit := p * (n as real);
      DpsResult(MaxInt(0, Round(maturity)), MaxInt(0, Round(deposit)), MaxInt(0, Round(maturity - deposit)))
  }

  /**
   * A deposit scheme with a positive rate never pays back less than was paid in:
   * P * ((1 + i)^n - 1) / i * (1 + i) >= P * n, by Bernoulli's inequality.
   */
  lemma DpsMaturityCoversDeposits(p: real, i: real, n: nat)
    requires p > 0.0 && i > 0.0
    ensures DpsMaturity(p, i, n) >= p * (n as real)
  {
    Bernoulli(i, n);
    var g := (Pow(1.0 + i, n) - 1.0) / i;
    assert g * i == Pow(1.0 + i, n) - 1.0;
    DivAtLeast(Pow(1.0 + i, n) - 1.0, i, n as real);
    assert g >= n as real;
    MulLeft(g, 1.0, 1.0 + i);
    MulLeft(p, n as real, g * (1.0 + i));
    assert DpsMaturity(p, i, n) == p * (g * (1.0 + i));
  }

  /** So, for positive inputs, the printed maturity is at least the printed deposit. */
  lemma DpsMaturityAtLeastDeposit(monthlyDeposit: real, interestRate: real, years: nat)
    requires monthlyDeposit > 0.0 && interestRate > 0.0 && years > 0
    ensures CalculateDps(Some(monthlyDeposit), Some(interestRate), Some(years)).maturity
         >= CalculateDps(Some(monthlyDeposit), Some(interestRate), Some(years)).deposit
  {
    var n := 12 * years;
    var i := MonthlyRate(interestRate);
    DpsMaturityCoversDeposits(monthlyDeposit, i, n);
    RoundMonotone(monthlyDeposit * (n as real), DpsMaturity(monthlyDeposit, i, n));
  }

  /**
   * A whole-number monthly deposit at a positive rate: the deposit is exactly 12t
   * deposits, and the printed profit is the printed maturity less the printed deposit.
   */
  lemma DpsProfitIsMaturityLessDeposit(monthlyDeposit: nat, interestRate: real, years: nat)
    requires monthlyDeposit > 0 && interestRate > 0.0 && years > 0
    ensures CalculateDps(Some(monthlyDeposit as real), Some(interestRate), Some(years)).deposit == monthlyDeposit * 12 * years
    ensures CalculateDps(Some(monthlyDeposit as real), Some(interestRate), Some(years)).profit
         == CalculateDps(Some(monthlyDeposit as real), Some(interestRate), Some(years)).maturity
          - CalculateDps(Some(monthlyDeposit as real), Some(interestRate), Some(years)).deposit
  {
    var p, n, i := monthlyDeposit as real, 12 * years, MonthlyRate(interestRate);
    var k := monthlyDeposit * n;
    assert p * (n as real) == k as real;
    RoundOfInt(k);
    DpsMaturityCoversDeposits(p, i, n);
    RoundMonotone(k as real, DpsMaturity(p, i, n));
    RoundShift(DpsMaturity(p, i, n), k);
  }

  /** A zero deposit, rate or term short-circuits to zeros, as in DPS(0, 10, 5). */
  lemma DpsZeroGuard(rate: real, years: nat)
    ensures CalculateDps(Some(0.0), Some(rate), Some(years)) == DpsResult(0, 0, 0)
    ensures CalculateDps(Some(1000.0), Some(0.0), Some(years)) == DpsResult(0, 0, 0)
    ensures CalculateDps(Some(1000.0), Some(rate), Some(0)) == DpsResult(0, 0, 0)
    ensures CalculateDps(None, Some(rate), Some(years)) == DpsResult(0, 0, 0)
  {
  }

  // ---------------------------------------------------------------------------
  // FDR

  /** The FDR record; `isIslamic` is absent from the all-zero record. */
  datatype FdrResult = FdrResult(maturity: int, profit: int, isIslamic: Option<bool>)

  /** FDR maturity before rounding: P * (1 + r/100)^t. */
  function FdrMaturity(p: real, r: real, t: nat): (m: real)
    ensures t == 0 ==> m == p
    ensures t == 1 ==> m == p + p * r / 100.0
  {
    assert Pow(1.0 + r / 100.0, 1) == 1.0 + r / 100.0;
    p * Pow(1.0 + r / 100.0, t)
  }

  /** `calculateFDR(P, r, t, isIslamic)`: compounding once a year over t whole years. */
  function CalculateFdr(principal: Option<real>, interestRate: Option<real>, years: Option<nat>, isIslamic: bool): (f: FdrResult)
    ensures f.maturity >= 0 && f.profit >= 0
    ensures AnyFalsy(principal, interestRate, years) ==> f == FdrResult(0, 0, None)
    ensures !AnyFalsy(principal, interestRate, years) ==>
              f.isIslamic == Some(isIslamic) &&
              f.maturity == MaxInt(0, Round(FdrMaturity(principal.value, interestRate.value, years.value)))
  {
    if AnyFalsy(principal, interestRate, years) then FdrResult(0, 0, None)
    else
      var p, r, t := principal.value, interestRate.value, years.value;
      var maturity := FdrMaturity(p, r, t);
      FdrResult(MaxInt(0, Round(maturity)), MaxInt(0, Round(maturity - p)), Some(isIslamic))
  }

  /** The Islamic flag is carried through and changes neither maturity nor profit. */
  lemma FdrIslamicNoEffect(principal: Option<real>, interestRate: Option<real>, years: Option<nat>)
    ensures CalculateFdr(principal, interestRate, years, true).maturity == CalculateFdr(principal, interestRate, years, false).maturity
    ensures CalculateFdr(principal, interestRate, years, true).profit == CalculateFdr(principal, interestRate, years, false).profit
  {
  }

  /** With positive principal, rate and term the deposit grows: profit is positive before rounding. */
  lemma FdrGrows(p: real, r: real, t: nat)
    requires p > 0.0 && r > 0.0 && t > 0
    ensures FdrMaturity(p, r, t) > p
  {
    PowAboveOne(1.0 + r / 100.0, t);
    var g := Pow(1.0 + r / 100.0, t);
    assert p * g - p == p * (g - 1.0);
    assert p * (g - 1.0) > 0.0;
  }

  /** A whole-number principal at a positive rate: the printed profit is the printed maturity less the principal. */
  lemma FdrProfitIsMaturityLessPrincipal(principal: nat, interestRate: real, years: nat, isIslamic: bool)
    requires principal > 0 && interestRate > 0.0 && years > 0
    ensures CalculateFdr(Some(principal as real), Some(interestRate), Some(years), isIslamic).maturity >= principal
    ensures CalculateFdr(Some(principal as real), Some(interestRate), Some(years), isIslamic).profit
         == CalculateFdr(Some(principal as real), Some(interestRate), Some(years), isIslamic).maturity - principal
  {
    var p := principal as real;
    FdrGrows(p, interestRate, years);
    RoundOfInt(principal);
    RoundMonotone(p, FdrMaturity(p, interestRate, years));
    RoundShift(FdrMaturity(p, interestRate, years), principal);
  }

  // ---------------------------------------------------------------------------
  // EMI

  /**
   * The EMI record. `Unbounded` is the record whose every field is +Infinity: what the
   * formula yields when (1 + i)^n - 1 is 0 and the numerator is positive.
   */
  datatype EmiResult = EmiResult(emi: int, totalPayment: int, totalInterest: int) | Unbounded

  /** The instalment before rounding: P * i * (1 + i)^n / ((1 + i)^n - 1). */
  function Instalment(p: real, i: real, n: nat): (e: real)
    requires Pow(1.0 + i, n) != 1.0
    ensures n == 1 ==> e == p * (1.0 + i)
  {
    SinglePayment(p, i, n);
    (p * i * Pow(1.0 + i, n)) / (Pow(1.0 + i, n) - 1.0)
  }

  /** What n instalments pay in all. */
  function Repaid(p: real, i: real, n: nat): real
    requires Pow(1.0 + i, n) != 1.0
  {
    Instalment(p, i, n) * (n as real)
  }

  /** With one payment, the instalment is the principal and one month's interest. */
  lemma SinglePayment(p: real, i: real, n: nat)
    requires Pow(1.0 + i, n) != 1.0
    ensures n == 1 ==> (p * i * Pow(1.0 + i, n)) / (Pow(1.0 + i, n) - 1.0) == p * (1.0 + i)
  {
    if n == 1 {
      assert Pow(1.0 + i, 1) == 1.0 + i;
      assert Pow(1.0 + i, n) - 1.0 == i;
      assert p * i * Pow(1.0 + i, n) == (p * (1.0 + i)) * i;
    }
  }

  /**
   * A total that covers a whole-number amount prints at least that amount, and the
   * printed difference is the printed total less the amount.
   */
  lemma PrintedDifference(total: real, amount: real)
    ensures amount == amount.Floor as real && 0.0 <= amount <= total ==>
              MaxInt(0, Round(total)) >= amount.Floor &&
              MaxInt(0, Round(total - amount)) == MaxInt(0, Round(total)) - amount.Floor
  {
    if amount == amount.Floor as real && 0.0 <= amount <= total {
      RoundShift(total, amount.Floor);
      RoundOfInt(amount.Floor);
      RoundMonotone(amount, total);
    }
  }

  /**
   * The record for a defined instalment: the instalment, n of them, and what they
   * pay beyond the principal, each rounded and clamped at 0.
   */
  function Amortised(p: real, i: real, n: nat): (e: EmiResult)
    requires Pow(1.0 + i, n) != 1.0
    ensures e.EmiResult? && e.emi >= 0 && e.totalPayment >= 0 && e.totalInterest >= 0
    ensures Instalment(p, i, n) >= 0.0 ==> e.emi == Round(Instalment(p, i, n))
    ensures e.totalPayment == MaxInt(0, Round(Repaid(p, i, n)))
    ensures p == p.Floor as real && 0.0 <= p <= Repaid(p, i, n) ==>
              e.totalPayment >= p.Floor && e.totalInterest == e.totalPayment - p.Floor
  {
    RoundAtLeast(Instalment(p, i, n), 0);
    PrintedDifference(Repaid(p, i, n), p);
    var emi := Instalment(p, i, n);
    var totalPayment := Repaid(p, i, n);
    var totalInterest := totalPayment - p;
    EmiResult(MaxInt(0, Round(emi)), MaxInt(0, Round(totalPayment)), MaxInt(0, Round(totalInterest)))
  }

  /** `calculateEMI(P, r, t)`: n = 12t equal monthly payments. */
  function CalculateEmi(principal: Option<real>, interestRate: Option<real>, years: Option<nat>): (e: EmiResult)
    ensures e.EmiResult? ==> e.emi >= 0 && e.totalPayment >= 0 && e.totalInterest >= 0
    ensures AnyFalsy(principal, interestRate, years) ==> e == EmiResult(0, 0, 0)
    ensures !AnyFalsy(principal, interestRate, years) && Pow(1.0 + MonthlyRate(interestRate.value), 12 * years.value) != 1.0 ==>
              e == Amortised(principal.value, MonthlyRate(interestRate.value), 12 * years.value)
  {
    if AnyFalsy(principal, interestRate, years) then EmiResult(0, 0, 0)
    else
      var p, r, t := principal.value, interestRate.value, years.value;
      var i := MonthlyRate(r);
      var n := 12 * t;
      var growth := Pow(1.0 + i, n);
      if growth == 1.0 then
        // division by zero: +Infinity in every field when the numerator is positive,
        // -Infinity otherwise, which the clamps at 0 turn into zeros
        if p * i * growth > 0.0 then Unbounded else EmiResult(0, 0, 0)
      else
        Amortised(p, i, n)
  }

  /** The algebra of repayment, with g standing for (1 + i)^n. */
  lemma RepaymentAlgebra(p: real, i: real, g: real, n: real, emi: real)
    requires p > 0.0 && i > 0.0 && g > 1.0 && n > 0.0
    requires emi * (g - 1.0) == p * i * g
    requires g - 1.0 <= n * i * g
    ensures emi > 0.0 && emi * n >= p
  {
    MulLeft(p * i, 1.0, g);
    if emi <= 0.0 {
      MulLeft(g - 1.0, emi, 0.0);
      assert false;
    }
    // (g - 1) * p <= p * (n * i * g) = (g - 1) * (emi * n)
    MulLeft(p, g - 1.0, n * i * g);
    assert p * (n * i * g) == (g - 1.0) * (emi * n);
    assert (g - 1.0) * p <= (g - 1.0) * (emi * n);
    CancelLeft(g - 1.0, p, emi * n);
  }

  /**
   * For a positive loan at a positive rate the formula is defined, the instalment is
   * positive, and n instalments repay at least the principal.
   */
  lemma EmiRepaysPrincipal(p: real, i: real, n: nat)
    requires p > 0.0 && i > 0.0 && n > 0
    ensures Pow(1.0 + i, n) > 1.0
    ensures Instalment(p, i, n) > 0.0
    ensures Repaid(p, i, n) >= p
  {
    PowAboveOne(1.0 + i, n);
    PowGrowthBound(1.0 + i, n);
    var g := Pow(1.0 + i, n);
    assert g - 1.0 <= (n as real) * i * g;
    var emi := Instalment(p, i, n);
    assert emi * (g - 1.0) == p * i * g;
    RepaymentAlgebra(p, i, g, n as real, emi);
  }

  /** So a positive loan's printed total payment is at least its printed principal. */
  lemma EmiTotalAtLeastPrincipal(principal: real, interestRate: real, years: nat)
    requires principal > 0.0 && interestRate > 0.0 && years > 0
    ensures CalculateEmi(Some(principal), Some(interestRate), Some(years)).EmiResult?
    ensures CalculateEmi(Some(principal), Some(interestRate), Some(years)).totalPayment >= Round(principal)
  {
    var i := MonthlyRate(interestRate);
    EmiRepaysPrincipal(principal, i, 12 * years);
    RoundMonotone(principal, Repaid(principal, i, 12 * years));
  }

  /** A whole-number loan: the printed interest is the printed total payment less the principal. */
  lemma EmiInterestIsPaymentLessPrincipal(principal: nat, interestRate: real, years: nat)
    requires principal > 0 && interestRate > 0.0 && years > 0
    ensures CalculateEmi(Some(principal as real), Some(interestRate), Some(years)).EmiResult?
    ensures CalculateEmi(Some(principal as real), Some(interestRate), Some(years)).totalPayment >= principal
    ensures CalculateEmi(Some(principal as real), Some(interestRate), Some(years)).totalInterest
         == CalculateEmi(Some(principal as real), Some(interestRate), Some(years)).totalPayment - principal
  {
    EmiRepaysPrincipal(principal as real, MonthlyRate(interestRate), 12 * years);
  }

  /**
   * The only whole-term way to make (1 + i)^n equal 1 with a non-zero rate is 1 + i = -1,
   * a rate of -2400 percent: the division by zero then gives +Infinity for a negative
   * principal and -Infinity, clamped to zeros, for a positive one.
   */
  lemma EmiDivisionByZero()
    ensures CalculateEmi(Some(-1000.0), Some(-2400.0), Some(1)) == Unbounded
    ensures CalculateEmi(Some(1000.0), Some(-2400.0), Some(1)) == EmiResult(0, 0, 0)
  {
    assert MonthlyRate(-2400.0) == -2.0;
    assert Pow(-1.0, 2) == 1.0;
    assert Pow(-1.0, 4) == 1.0;
    assert Pow(-1.0, 6) == 1.0;
    assert Pow(-1.0, 8) == 1.0;
    assert Pow(-1.0, 10) == 1.0;
    assert Pow(-1.0, 12) == 1.0;
  }
}
