# HisabBD calculators in Dafny

HisabBD is a web toolkit of everyday calculators for Bangladesh. This project models
its calculation core, the plain JavaScript functions behind the pages, and proves
properties of them:

- **Education** (`education.js`): the SSC/HSC mark-to-grade-point scale, the GPA over the
  subjects filled so far, the credit-weighted CGPA, and the percentage <-> GPA converters.
- **Admission** (`admission.js`): the table of eight university admission profiles and the
  GPA score a profile gives, with second-time and previously-admitted penalties.
- **Finance** (`finance.js`): DPS maturity, FDR compound growth and the EMI of a loan.
- **Salary tax** (`utilities.js`, `calculateSalaryTax`): the exemption and the three-slab
  loop.
- **Zakat** (`zakat.js`): the seven asset fields, net wealth, the nisab test and the 2.5% due.
- **Gold** (`gold.js`): the price of a weight of gold at a karat's purity.
- **BMI** (`health.js`): the metric and imperial index, its one-decimal score and the four
  bands with their texts.

A module `Numeric` holds the JavaScript number conventions every calculator shares:
- A converted input is `Option<real>`, where `None` is NaN.
- Truthiness is `Truthy`.
- `Math.round` is `Round`.
- `Math.pow` with a whole exponent is `Pow`.
- The string `toFixed(f)` prints is `Decimal(negative, magnitude, places)`. For numbers
  below 10^21 in magnitude, that value fixes the printed digits and sign exactly,
  including `"-0.00"`.

Numbers are exact reals. Rounding happens only where the source rounds: in `Math.round`
and in `toFixed`.

Most of the core is expressions, so it is modelled as functions. The two calculators
that accumulate in loops are methods proved against a specification function:
- `calculateCGPA` sums points and credits in a `forEach`.
- `calculateSalaryTax` walks its slab array, taking each slab's share off the taxable
  amount.

## Model

| member | source | states |
|---|---|---|
| Numeric.Round | client/src/calculators/gold.js:15 | `Math.round(x)` is an integer within half a unit of x, ties upward |
| Numeric.ToFixed | client/src/calculators/education.js:21 | `toFixed(f)` keeps the sign of x and prints the integer nearest to abs(x)·10^f |
| Numeric.ToFixedMonotone | client/src/calculators/health.js:43 | a larger non-negative number never prints with fewer units of the last place |
| Education.GradePoint | client/src/calculators/education.js:1-10 | a grade point is one of 0, 1, 2, 3, 3.5, 4, 5 |
| Education.GradePointBands | client/src/calculators/education.js:1-10 | each grade point is given exactly on its band of marks, every band closed below (both directions) |
| Education.GradePointMonotone | client/src/calculators/education.js:1-10 | a higher mark never earns a lower grade point |
| Education.GradePointBoundary | client/src/calculators/education.js:3-8 | 80 is 5.00 and 79.9 is 4.00; 33 is 1.00 and 32.9 is 0.00 |
| Education.FilledMarks | client/src/calculators/education.js:17 | the filter keeps at most the subjects it is given |
| Education.FilledMarksKeeps | client/src/calculators/education.js:17-18 | a mark is kept exactly when some subject row holds it, so nothing is kept exactly when every row is empty |
| Education.FilledMarksAppend | client/src/calculators/education.js:17 | filtering distributes over concatenation of subject lists |
| Education.TotalPoints | client/src/calculators/education.js:20 | the summed grade points lie between 0 and 5 per subject |
| Education.GpaMean | client/src/calculators/education.js:20-21 | the mean grade point of the filled subjects lies in [0, 5] |
| Education.CalculateGpa | client/src/calculators/education.js:16-22 | "0.00" with no filled subject; always a non-negative two-decimal value of at most 5.00 |
| Education.GpaPlaceholder | client/src/calculators/education.js:17-18 | "0.00" whenever no subject row holds a number |
| Education.FilledMarksSkipsEmpty | client/src/calculators/education.js:17 | the filter drops an empty subject row wherever it stands |
| Education.GpaIgnoresUnfilled | client/src/calculators/education.js:17-21 | an empty subject row anywhere leaves the GPA unchanged |
| Education.GpaExamples | client/src/calculators/education.js:16-22 | no rows or only empty rows give "0.00"; marks 80 and 65 give "4.25" |
| Education.FilledCourses | client/src/calculators/education.js:28 | the filter keeps at most the courses it is given |
| Education.FilledCoursesKeeps | client/src/calculators/education.js:28-29 | a grade/credit pair is kept exactly when some course row holds both, so nothing is kept exactly when every row misses a field |
| Education.CgpaPlaceholder | client/src/calculators/education.js:28-29 | "0.00" whenever no course row has both its grade and its credit |
| Education.FilledCoursesSkipsUnfilled | client/src/calculators/education.js:28 | the filter drops a course missing a field wherever it stands |
| Education.FilledCoursesAppend | client/src/calculators/education.js:28 | filtering distributes over concatenation of course lists |
| Education.WeightedMean | client/src/calculators/education.js:29-39 | the placeholder is printed exactly when no course is filled or the total credit is not positive |
| Education.Cgpa | client/src/calculators/education.js:29-39 | two decimals; "0.00" where there is no weighted mean; otherwise the sign of the mean and, for a non-negative mean, the integer nearest 100 times it |
| Education.CalculateCgpa | client/src/calculators/education.js:27-40 | the accumulating loop prints the weighted mean of points over credits, or "0.00" |
| Education.PointsWithin | client/src/calculators/education.js:34-37 | with positive credits, the accumulated points lie between lo and hi times the accumulated credits |
| Education.MeanWithin | client/src/calculators/education.js:39 | points over credits lies between the least and the greatest grade |
| Education.WeightedMeanWithin | client/src/calculators/education.js:29-39 | a CGPA over positive credits is defined and lies between the grades' bounds |
| Education.CgpaWithin | client/src/calculators/education.js:27-40 | the printed CGPA of grades in [lo, hi] lies between lo.00 and hi.00 |
| Education.CgpaIgnoresUnfilled | client/src/calculators/education.js:28-39 | a course missing its grade or credit, anywhere, leaves the CGPA unchanged |
| Education.CgpaExamples | client/src/calculators/education.js:27-40 | 4.0 and 2.0 on three credits each give "3.00"; zero credit or a missing credit gives "0.00" |
| Education.GpaOfPercentage | client/src/calculators/education.js:44-46 | the GPA lies in [0, 5], is a twentieth of any percentage in [0, 100], 0 for a percentage of 0 or less and 5 from 100 on |
| Education.PercentageOfGpa | client/src/calculators/education.js:51-52 | the percentage lies in [0, 100], is twenty times any GPA in [0, 5], 0 for a GPA of 0 or less and 100 from 5 on |
| Education.PercentageToGpa | client/src/calculators/education.js:42-47 | a non-negative value of at most 5.00; "0.00" for an empty or non-numeric field |
| Education.GpaToPercentage | client/src/calculators/education.js:49-53 | a non-negative value of at most 100.00; "0.00" for an empty or non-numeric field |
| Education.ConvertersRoundTrip | client/src/calculators/education.js:42-53 | before formatting, the two converters undo each other on [0, 100] and [0, 5] |
| Education.PrintedGpaRoundTrip | client/src/calculators/education.js:42-53 | every printed GPA k/100 in [0, 5] prints as the percentage 20k/100, and that percentage converts back to the same printed GPA |
| Education.ConverterExamples | client/src/calculators/education.js:42-53 | 4.00 is "80.00"; 80 is "4.00"; -10 clamps to "0.00"; 120 clamps to "5.00" |
| Admission.EarnedMarks | client/src/calculators/admission.js:99-101 | GPAs in [0, 5] under non-negative multipliers earn between 0 and the maximum |
| Admission.MaxMarks | client/src/calculators/admission.js:103 | the maximum is what two perfect GPAs of 5 earn, and is non-negative under non-negative multipliers |
| Admission.Penalty | client/src/calculators/admission.js:106-112 | a ticked option whose profile defines the penalty is charged exactly that amount; anything charged comes from such an option |
| Admission.TotalDeduction | client/src/calculators/admission.js:106-112 | nothing without ticked options; both defined penalties when both are ticked; never negative for non-negative penalties |
| Admission.ScoreFor | client/src/calculators/admission.js:99-123 | a GPA-scored record prints the final score as the earned marks less the penalties, clamped at 0 |
| Admission.CalculateAdmissionMarks | client/src/calculators/admission.js:81-125 | null exactly for an unknown key; the fixed test-only record for engineering profiles; otherwise a non-negative final score |
| Admission.ProfilesConsistent | client/src/calculators/admission.js:6-79 | every profile's total GPA marks equal what two perfect GPAs earn, and every id is its key |
| Admission.EngineeringProfiles | client/src/calculators/admission.js:59-97 | exactly "engineering" and "ckruet" are test-only, whatever the GPAs and options |
| Admission.DeductionExamples | client/src/calculators/admission.js:106-112 | medical penalties 5, 10 and 15 when both are ticked; DU has none; CU charges only its second-time 5 |
| Admission.NoOptionsNoDeduction | client/src/calculators/admission.js:106-112 | without ticked options nothing is deducted under any profile |
| Admission.PercentageIgnoresOptions | client/src/calculators/admission.js:99-123 | the percentage and the earned marks do not depend on the penalty options |
| Admission.RajshahiPercentage | client/src/calculators/admission.js:123 | RU, where GPAs weigh nothing, shows the text "100" as its percentage |
| Admission.PerfectGpas | client/src/calculators/admission.js:99-123 | two 5.0 GPAs lose "0.00" and score "100.0" percent under every GPA-scored profile |
| Admission.DhakaExample | client/src/calculators/admission.js:99-123 | DU with two 5s earns "20.00", loses "0.00", scores "100.0" percent |
| Admission.MedicalExample | client/src/calculators/admission.js:99-123 | a second-time medical candidate with two 5s is deducted "5.00" and keeps "195.00" |
| Finance.CalculateDps | client/src/calculators/finance.js:1-21 | all fields non-negative; zeros for any falsy input; otherwise the deposit is 12t monthly deposits |
| Finance.DpsMaturity | client/src/calculators/finance.js:12 | no months mature to 0; one month matures to the deposit with one month's interest |
| Finance.DpsMaturityCoversDeposits | client/src/calculators/finance.js:11-14 | at a positive rate the unrounded maturity is at least the n deposits |
| Finance.DpsMaturityAtLeastDeposit | client/src/calculators/finance.js:12-18 | for positive inputs the printed maturity is at least the printed deposit |
| Finance.DpsProfitIsMaturityLessDeposit | client/src/calculators/finance.js:12-19 | for a whole-number deposit at a positive rate the deposit is 12t deposits and the printed profit is the printed maturity less the printed deposit |
| Finance.DpsZeroGuard | client/src/calculators/finance.js:6 | a zero or missing deposit, rate or term gives the all-zero record |
| Finance.FdrMaturity | client/src/calculators/finance.js:31 | no years leave the principal; one year adds r percent of it |
| Finance.CalculateFdr | client/src/calculators/finance.js:23-39 | both figures non-negative; the zero record without the flag for falsy input; otherwise the rounded compound maturity and the flag |
| Finance.FdrIslamicNoEffect | client/src/calculators/finance.js:23-38 | the Islamic flag changes neither the maturity nor the profit |
| Finance.FdrProfitIsMaturityLessPrincipal | client/src/calculators/finance.js:31-36 | for a whole-number principal at a positive rate the printed maturity is at least the principal and the printed profit is the maturity less the principal |
| Finance.FdrGrows | client/src/calculators/finance.js:30-32 | with positive principal, rate and term the unrounded maturity exceeds the principal |
| Finance.Instalment | client/src/calculators/finance.js:52 | a single payment is the principal with one month's interest |
| Finance.Amortised | client/src/calculators/finance.js:52-60 | non-negative fields; a non-negative instalment printed rounded; the total payment is n instalments rounded; for a whole-number principal they cover, the interest is the total payment less the principal |
| Finance.CalculateEmi | client/src/calculators/finance.js:41-61 | zeros for any falsy input; the amortised record wherever the denominator is non-zero; finite fields are non-negative |
| Finance.RepaymentAlgebra | client/src/calculators/finance.js:52-53 | an instalment solving the annuity equation is positive and n of them cover the principal |
| Finance.EmiRepaysPrincipal | client/src/calculators/finance.js:52-53 | a positive loan at a positive rate has a defined, positive instalment, and n of them repay at least the principal |
| Finance.EmiTotalAtLeastPrincipal | client/src/calculators/finance.js:52-58 | a positive loan's printed total payment is at least its rounded principal |
| Finance.EmiInterestIsPaymentLessPrincipal | client/src/calculators/finance.js:52-58 | for a whole-number loan at a positive rate the printed total covers the principal and the printed interest is the total less the principal |
| Finance.EmiDivisionByZero | client/src/calculators/finance.js:48-52 | at -2400 percent the denominator is 0: +Infinity for a negative principal, zeros for a positive one |
| Utilities.InSlab | client/src/calculators/utilities.js:51 | a slab's share never exceeds the taxable amount, is non-negative, and is all of it in the last slab |
| Utilities.SlabTax | client/src/calculators/utilities.js:49-54 | nothing taxable, nothing charged |
| Utilities.SlabTaxNonNegative | client/src/calculators/utilities.js:43-54 | slabs with non-negative limits and rates never charge a negative tax |
| Utilities.SlabTaxStep | client/src/calculators/utilities.js:49-54 | one turn of the slab loop adds the slab's charge and moves on with the rest |
| Utilities.BracketTax | client/src/calculators/utilities.js:43-47 | the tax on a non-negative taxable amount lies between 0 and 15% of it |
| Utilities.SlabTaxClosedForm | client/src/calculators/utilities.js:43-54 | the slab loop charges 5% of the first 100,000, 10% of the next 300,000 and 15% beyond |
| Utilities.ChargedSumsToTaxable | client/src/calculators/utilities.js:49-54 | the slabs' shares are non-negative and add up to the whole taxable amount |
| Utilities.CalculateSalaryTax | client/src/calculators/utilities.js:31-57 | 0 up to the 350,000 exemption; above it, the rounded closed-form slab tax of the excess; always equal to Utilities.SalaryTax |
| Utilities.SalaryTax | client/src/calculators/utilities.js:31-57 | the yearly tax is non-negative, 0 up to the exemption, and at most 15% of the excess |
| Utilities.BracketTaxMonotone | client/src/calculators/utilities.js:43-47 | the slab tax grows with the taxable amount |
| Utilities.SalaryTaxMonotone | client/src/calculators/utilities.js:31-57 | a higher salary never pays less tax |
| Utilities.SalaryTaxExamples | client/src/calculators/utilities.js:31-57 | 50,000 a month pays 20,000; 29,000 pays 0; 100,000 pays 102,500 |
| Zakat.TotalAssets | client/src/calculators/zakat.js:14-21 | the total is the sum of the seven asset fields under the form's names, an empty field as 0 |
| Zakat.NetWealth | client/src/calculators/zakat.js:23 | without liabilities net wealth is the total; non-negative liabilities never raise it above the total |
| Zakat.CalculateZakat | client/src/calculators/zakat.js:1-42 | eligible exactly at net wealth >= nisab; below it nothing due and raw figures; above it figures clamped at 0 and the due is a fortieth of net wealth |
| Zakat.SumFieldsSame | client/src/calculators/zakat.js:14-21 | the asset total depends only on the fields it names |
| Zakat.ZakatReadsOnlyItsFields | client/src/calculators/zakat.js:2-25 | two forms agreeing on the seven assets, liabilities and nisab give the same result |
| Zakat.OtherKeysIgnored | client/src/calculators/zakat.js:2-12 | a field under any other name does not change the result |
| Zakat.ReceivablesSpelling | client/src/calculators/zakat.js:9-21 | receivables count under "debtsRecievable" and are ignored under "debtsReceivable" |
| Zakat.SumFieldsMonotone | client/src/calculators/zakat.js:14-21 | larger asset fields give a larger total |
| Zakat.ZakatMonotone | client/src/calculators/zakat.js:14-39 | more assets or fewer liabilities never remove eligibility nor lower the amount due |
| Zakat.ZakatExamples | client/src/calculators/zakat.js:1-42 | 200,000 in hand at a nisab of 110,000 owes 5,000; 50,000 owes nothing |
| Zakat.NetDebtClamped | client/src/calculators/zakat.js:25-40 | a net debt shows as 0 when eligible (negative nisab) and as the raw negative figure otherwise |
| Gold.Purity | client/src/calculators/gold.js:8-12 | 22, 21 and 18 karat are 0.916, 0.875 and 0.75; any other or missing karat counts as pure |
| Gold.CalculateGoldPrice | client/src/calculators/gold.js:1-16 | 0 for a falsy price or weight; otherwise price times purity times grams, rounded and clamped at 0 |
| Gold.GoldMonotoneInGrams | client/src/calculators/gold.js:14-15 | at a positive price more gold never costs less |
| Gold.GoldMonotoneInPurity | client/src/calculators/gold.js:8-15 | a purer grade never costs less |
| Gold.PurityOrder | client/src/calculators/gold.js:8-12 | 18k < 21k < 22k < 24k, and no grade is purer than 24k |
| Gold.RoundedBetween | client/src/calculators/gold.js:14-15 | a price at a purity in [0.75, 1] rounds between the 75% and the pure price |
| Gold.GoldWithinPureBounds | client/src/calculators/gold.js:8-15 | any grade costs between 75% of pure gold and pure gold, rounded |
| Gold.GoldExamples | client/src/calculators/gold.js:1-16 | 10 g of 22k at 7,000 costs 64,120; 14k or no karat costs 70,000; no weight or a zero price costs 0 |
| Health.Score | client/src/calculators/health.js:43 | the score of a non-negative index is the one-decimal printed digits read back |
| Health.Classify | client/src/calculators/health.js:48-64 | each band exactly on its range of the score, Obese also between 24.9 and 25 where no printed score falls |
| Health.GetBmiDetails | client/src/calculators/health.js:42-72 | the score is the printed index, the status is one of the four texts, and colour and advice belong to the status's band |
| Health.StatusFixesColourAndAdvice | client/src/calculators/health.js:48-71 | equal statuses come with equal colours and equal advice |
| Health.StatusTextsDistinct | client/src/calculators/health.js:48-64 | the four bands have four different status texts |
| Health.CalculateBmi | client/src/calculators/health.js:1-40 | null exactly unless weight and height are positive numbers; otherwise the details of the metric or imperial index |
| Health.StatusBands | client/src/calculators/health.js:43-64 | by the unrounded index, Underweight below 18.45, Normal to 24.95, Overweight to 29.95, Obese above: no gaps (both directions) |
| Health.StatusShown | client/src/calculators/health.js:42-72 | the status shown is each band's text exactly on that band's range of the index |
| Health.IndexMonotoneInWeight | client/src/calculators/health.js:34-38 | both indexes are non-negative and grow with weight at a fixed height |
| Health.ScoreMonotoneInWeight | client/src/calculators/health.js:1-40 | at the same height a heavier person never gets a lower score |
| Health.ScoreAntitoneInHeight | client/src/calculators/health.js:11-38 | at the same weight a taller person never gets a higher metric score |
| Health.ScoreTracksIndex | client/src/calculators/health.js:43 | a larger non-negative index never prints as a smaller score |
| Health.FeetAndInches | client/src/calculators/health.js:21-28 | feet and inches read as 12·feet + inches, a missing part as 0; an object height in metric is null |
| Health.BmiExamples | client/src/calculators/health.js:1-40 | 70 kg at 175 cm scores 22.9, Normal; zero or missing weight, or negative height, gives null |

## Left out

- `calculateAge` in `utilities.js` reads the clock and calls the date-fns library, and is not part of this model.
- The pages, the server, the language context and the layout components are not part of this model; they do no arithmetic.
- IEEE-754 floating point is not modelled: numbers are exact reals. So `0.1 + 0.2` artifacts, ±Infinity from overflow, and `toFixed` on values that are not exactly representable can differ from the model in the last digit.
- NaN propagation is modelled only where the source tests for it. The falsy guards of the finance and gold calculators, the `isNaN` filters of the education calculators and `parseFloat` in the BMI calculator all map NaN to `None`. In the admission, salary-tax and zakat calculators a non-numeric input would yield NaN or the string "NaN"; the model takes those inputs as numbers.
- Finance: the term in years is a whole non-negative number (`nat`). Fractional or negative exponents of `Math.pow` are not modelled.
- Admission: a key that names an inherited property of JavaScript objects (such as "toString") is not modelled; every other unknown key gives null.
- Admission: the non-engineering record has no `note`; it is `None` in the model.
- Health: an imperial height of `null` makes the source throw a TypeError (`typeof null` is "object"); `Height` has no such value.
- Health: `calculateBMI`'s default unit system is not modelled; the caller always passes one.
- Numeric.ToFixed: for numbers of magnitude 10^21 or more `toFixed` prints the exponent form of `String(x)`; the model prints digits for every number.
- Health.Score: states the printed digits only for a non-negative index; a negative index cannot arise from positive weight and height.
- Finance.CalculateDps: states the deposit exactly, and the maturity and profit only through Finance.DpsMaturityCoversDeposits, Finance.DpsMaturityAtLeastDeposit and Finance.DpsProfitIsMaturityLessDeposit.
- Utilities.CalculateSalaryTax: the amounts the loop takes off slab by slab are stated on the recursive specification (Utilities.ChargedSumsToTaxable), not tracked inside the loop.
