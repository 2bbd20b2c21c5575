/**
 * University admission GPA scoring in Bangladesh: a fixed table of eight institution
 * profiles, and the score a profile gives an SSC/HSC GPA pair, less penalties for
 * second-time and previously admitted candidates.
 */
module Admission {
  import opened Numeric

  /**
   * One institution's scoring profile. A deduction that the profile does not define
   * is None; `note` is the profile's remark, if any.
   */
  datatype Profile = Profile(
    id: string,
    name: string,
    sscMultiplier: real,
    hscMultiplier: real,
    totalGpaMarks: real,
    secondTimeDeduction: Option<real>,
    prevAdmittedDeduction: Option<real>,
    isEngineering: bool,
    group: string,
    note: Option<string>)

  /** The supported institutions, by the key the page selects them with. */
  const AdmissionSystems: map<string, Profile> := map[
    "medical" := Profile("medical", "Medical (MBBS/BDS)", 15.0, 25.0, 200.0, Some(5.0), Some(10.0), false, "Medical", None),
    "du" := Profile("du", "Dhaka University (DU)", 2.0, 2.0, 20.0, None, None, false, "General", None),
    "ju" := Profile("ju", "Jahangirnagar University (JU)", 1.5, 2.5, 20.0, None, None, false, "General", None),
    "cu" := Profile("cu", "Chittagong University (CU)", 1.6, 2.4, 20.0, Some(5.0), None, false, "General", None),
    "ru" := Profile("ru", "Rajshahi University (RU)", 0.0, 0.0, 0.0, None, None, false, "General",
                    Some("Merit is 100% on MCQ Test (100 Marks)")),
    "gst" := Profile("gst", "GST Cluster (JnU, SUST, etc.)", 2.0, 2.0, 20.0, None, None, false, "General", None),
    "engineering" := Profile("engineering", "Engineering Hub (BUET, BUTEX)", 0.0, 0.0, 0.0, None, None, true, "Engineering",
                             Some("Merit is test-based. Selection depends on HSC subject marks (P/C/M/E).")),
    "ckruet" := Profile("ckruet", "CKRUET (CUET, KUET, RUET)", 0.0, 0.0, 0.0, None, None, true, "Engineering",
                        Some("Merit is test-based (500 Marks). Selection based on HSC GP (P/C/M/E)."))
  ]

  /** The penalty options ticked on the form. */
  datatype Options = Options(isSecondTimer: bool, isPrevAdmitted: bool)

  /** A displayed field: a fixed text, or a number printed with `toFixed`. */
  datatype Field = Text(text: string) | Fixed(digits: Decimal)

  /** The record the scorer returns. */
  datatype Score = Score(
    isEngineering: bool,
    earned: Field,
    lost: Field,
    max: Field,
    deduction: Field,
    finalGpaScore: Field,
    percentage: Field,
    note: Option<string>)

  /** What every engineering profile returns: merit there is decided by the admission test alone. */
  const EngineeringScore: Score := Score(
    true, Text("N/A"), Text("N/A"), Text("Exam Only"), Fixed(Zero2), Text("100% Test"), Text("N/A"),
    Some("Engineering merit is calculated purely on the Admission Test score. GPA is used for Eligibility and Shortlisting (top candidates)."))

  /** Marks earned from the two GPAs, before any deduction. */
  function EarnedMarks(p: Profile, sscGpa: real, hscGpa: real): (m: real)
    ensures 0.0 <= sscGpa <= 5.0 && 0.0 <= hscGpa <= 5.0 && p.sscMultiplier >= 0.0 && p.hscMultiplier >= 0.0 ==>
              0.0 <= m <= 5.0 * p.sscMultiplier + 5.0 * p.hscMultiplier
  {
    var ssc, hsc := sscGpa * p.sscMultiplier, hscGpa * p.hscMultiplier;
    PartWithin(sscGpa, p.sscMultiplier);
    PartWithin(hscGpa, p.hscMultiplier);
    assert 0.0 <= sscGpa <= 5.0 && p.sscMultiplier >= 0.0 ==> 0.0 <= ssc <= 5.0 * p.sscMultiplier;
    assert 0.0 <= hscGpa <= 5.0 && p.hscMultiplier >= 0.0 ==> 0.0 <= hsc <= 5.0 * p.hscMultiplier;
    ssc + hsc
  }

  /** A GPA in [0, 5] earns between 0 and 5 times a non-negative multiplier. */
  lemma PartWithin(gpa: real, multiplier: real)
    ensures 0.0 <= gpa <= 5.0 && multiplier >= 0.0 ==> 0.0 <= gpa * multiplier <= 5.0 * multiplier
  {
    if 0.0 <= gpa <= 5.0 && multiplier >= 0.0 {
      MulLeft(multiplier, 0.0, gpa);
      MulLeft(multiplier, gpa, 5.0);
    }
  }

  /** The marks two perfect GPAs of 5 earn. */
  function MaxMarks(p: Profile): (m: real)
    ensures m == EarnedMarks(p, 5.0, 5.0)
    ensures p.sscMultiplier >= 0.0 && p.hscMultiplier >= 0.0 ==> m >= 0.0
  {
    5.0 * p.sscMultiplier + 5.0 * p.hscMultiplier
  }

  /** The penalty for a ticked option, when the profile defines a non-zero one. */
  function Penalty(ticked: bool, amount: Option<real>): (d: real)
    ensures d != 0.0 ==> ticked && amount.Some? && d == amount.value
    ensures ticked && amount.Some? ==> d == amount.value
  {
    if ticked && Truthy(amount) then amount.value else 0.0
  }

  /** The sum of the penalties the ticked options incur under a profile. */
  function TotalDeduction(p: Profile, options: Options): (d: real)
    ensures !options.isSecondTimer && !options.isPrevAdmitted ==> d == 0.0
    ensures options.isSecondTimer && options.isPrevAdmitted && p.secondTimeDeduction.Some? && p.prevAdmittedDeduction.Some? ==>
              d == p.secondTimeDeduction.value + p.prevAdmittedDeduction.value
    ensures ((p.secondTimeDeduction.Some? ==> p.secondTimeDeduction.value >= 0.0) &&
             (p.prevAdmittedDeduction.Some? ==> p.prevAdmittedDeduction.value >= 0.0)) ==> d >= 0.0
  {
    Penalty(options.isSecondTimer, p.secondTimeDeduction) + Penalty(options.isPrevAdmitted, p.prevAdmittedDeduction)
  }

  /** The score of a non-engineering profile. */
  function ScoreFor(p: Profile, sscGpa: real, hscGpa: real, options: Options): (s: Score)
    ensures !s.isEngineering
    ensures s.finalGpaScore.Fixed? && !s.finalGpaScore.digits.negative
    ensures s.finalGpaScore == Fixed(ToFixed(Max(0.0, EarnedMarks(p, sscGpa, hscGpa) - TotalDeduction(p, options)), 2))
  {
    var earned := EarnedMarks(p, sscGpa, hscGpa);
    var max := MaxMarks(p);
    var lost := max - earned;
    var deduction := TotalDeduction(p, options);
    Score(false,
          Fixed(ToFixed(earned, 2)),
          Fixed(ToFixed(lost, 2)),
          Fixed(ToFixed(max, 2)),
          Fixed(ToFixed(deduction, 2)),
          Fixed(ToFixed(Max(0.0, earned - deduction), 2)),
          if max > 0.0 then Fixed(ToFixed(earned / max * 100.0, 1)) else Text("100"),
          None)
  }

  /**
   * `calculateAdmissionMarks`: None for an unknown key; the fixed engineering record for
   * an engineering profile, whatever the GPAs; otherwise the profile's score.
   */
  function CalculateAdmissionMarks(sscGpa: real, hscGpa: real, systemKey: string, options: Options): (r: Option<Score>)
    ensures r.None? <==> systemKey !in AdmissionSystems
    ensures systemKey in AdmissionSystems && AdmissionSystems[systemKey].isEngineering ==> r == Some(EngineeringScore)
    ensures systemKey in AdmissionSystems && !AdmissionSystems[systemKey].isEngineering ==>
              r.Some? && !r.value.isEngineering && r.value.finalGpaScore.Fixed? && !r.value.finalGpaScore.digits.negative
  {
    if systemKey !in AdmissionSystems then None
    else
      var p := AdmissionSystems[systemKey];
      if p.isEngineering then Some(EngineeringScore)
      else Some(ScoreFor(p, sscGpa, hscGpa, options))
  }

  /** Every profile's total GPA marks are what two perfect GPAs earn under it. */
  lemma ProfilesConsistent()
    ensures forall key :: key in AdmissionSystems ==> AdmissionSystems[key].totalGpaMarks == MaxMarks(AdmissionSystems[key])
    ensures forall key :: key in AdmissionSystems ==> AdmissionSystems[key].id == key
  {
    forall key | key in AdmissionSystems
      ensures AdmissionSystems[key].totalGpaMarks == MaxMarks(AdmissionSystems[key])
      ensures AdmissionSystems[key].id == key
    {
      var p := AdmissionSystems[key];
      assert MaxMarks(p) == 5.0 * p.sscMultiplier + 5.0 * p.hscMultiplier;
    }
  }

  /** Exactly the Engineering hub and CKRUET are scored by the test alone. */
  lemma EngineeringProfiles(sscGpa: real, hscGpa: real, options: Options)
    ensures forall key :: key in AdmissionSystems ==> (AdmissionSystems[key].isEngineering <==> key in {"engineering", "ckruet"})
    ensures CalculateAdmissionMarks(sscGpa, hscGpa, "engineering", options) == Some(EngineeringScore)
    ensures CalculateAdmissionMarks(sscGpa, hscGpa, "ckruet", options) == Some(EngineeringScore)
  {
  }

  /** Penalties add up; a penalty the profile does not define is never charged. */
  lemma DeductionExamples()
    ensures TotalDeduction(AdmissionSystems["medical"], Options(true, true)) == 15.0
    ensures TotalDeduction(AdmissionSystems["medical"], Options(true, false)) == 5.0
    ensures TotalDeduction(AdmissionSystems["medical"], Options(false, true)) == 10.0
    ensures TotalDeduction(AdmissionSystems["du"], Options(true, false)) == 0.0
    ensures TotalDeduction(AdmissionSystems["cu"], Options(true, true)) == 5.0
  {
  }

  /** Without ticked options nothing is deducted, under any profile. */
  lemma NoOptionsNoDeduction(p: Profile)
    ensures TotalDeduction(p, Options(false, false)) == 0.0
  {
  }

  /** The percentage is taken from the marks before deduction, so the options never change it. */
  lemma PercentageIgnoresOptions(sscGpa: real, hscGpa: real, systemKey: string, o1: Options, o2: Options)
    requires systemKey in AdmissionSystems
    ensures CalculateAdmissionMarks(sscGpa, hscGpa, systemKey, o1).value.percentage
         == CalculateAdmissionMarks(sscGpa, hscGpa, systemKey, o2).value.percentage
    ensures CalculateAdmissionMarks(sscGpa, hscGpa, systemKey, o1).value.earned
         == CalculateAdmissionMarks(sscGpa, hscGpa, systemKey, o2).value.earned
  {
  }

  /** Where GPAs count for nothing (RU) the percentage is the text "100", whatever the GPAs. */
  lemma RajshahiPercentage(sscGpa: real, hscGpa: real, options: Options)
    ensures CalculateAdmissionMarks(sscGpa, hscGpa, "ru", options).value.percentage == Text("100")
  {
  }

  /** Two perfect GPAs lose no marks and score 100 percent under every GPA-scored profile. */
  lemma PerfectGpas(systemKey: string, options: Options)
    requires systemKey in AdmissionSystems && !AdmissionSystems[systemKey].isEngineering
    ensures CalculateAdmissionMarks(5.0, 5.0, systemKey, options).value.lost == Fixed(Zero2)
    ensures MaxMarks(AdmissionSystems[systemKey]) > 0.0 ==>
              CalculateAdmissionMarks(5.0, 5.0, systemKey, options).value.percentage == Fixed(Decimal(false, 1000, 1))
  {
    var p := AdmissionSystems[systemKey];
    assert MaxMarks(p) - EarnedMarks(p, 5.0, 5.0) == 0.0;
    ToFixedExact(0.0, 2, 0);
    if MaxMarks(p) > 0.0 {
      assert EarnedMarks(p, 5.0, 5.0) / MaxMarks(p) * 100.0 == 100.0;
      }
  }

  /** DU with two 5s earns "20.00" of 20, lost "0.00" and 100 percent. */
  lemma DhakaExample()
    ensures CalculateAdmissionMarks(5.0, 5.0, "du", Options(false, false)).value.earned == Fixed(Decimal(false, 2000, 2))
    ensures CalculateAdmissionMarks(5.0, 5.0, "du", Options(false, false)).value.lost == Fixed(Zero2)
    ensures CalculateAdmissionMarks(5.0, 5.0, "du", Options(false, false)).value.percentage == Fixed(Decimal(false, 1000, 1))
  {
    var p := AdmissionSystems["du"];
    assert EarnedMarks(p, 5.0, 5.0) == 20.0 && MaxMarks(p) == 20.0;
    PerfectGpas("du", Options(false, false));
    ToFixedExact(20.0, 2, 2000);
  }

  /** A second-time medical candidate with two 5s loses 5 marks and keeps 195, still at 100 percent. */
  lemma MedicalExample()
    ensures CalculateAdmissionMarks(5.0, 5.0, "medical", Options(true, false)).value.deduction == Fixed(Decimal(false, 500, 2))
    ensures CalculateAdmissionMarks(5.0, 5.0, "medical", Options(true, false)).value.finalGpaScore == Fixed(Decimal(false, 19500, 2))
    ensures CalculateAdmissionMarks(5.0, 5.0, "medical", Options(true, false)).value.percentage == Fixed(Decimal(false, 1000, 1))
  {
    ToFixedExact(5.0, 2, 500);
    ToFixedExact(195.0, 2, 19500);
    ToFixedExact(100.0, 1, 1000);
    var p := AdmissionSystems["medical"];
    var o := Options(true, false);
    assert p.sscMultiplier == 15.0 && p.hscMultiplier == 25.0 && p.secondTimeDeduction == Some(5.0) && !p.isEngineering;
    assert EarnedMarks(p, 5.0, 5.0) == 200.0 && MaxMarks(p) == 200.0;
    assert TotalDeduction(p, o) == 5.0;
    var s := ScoreFor(p, 5.0, 5.0, o);
    assert CalculateAdmissionMarks(5.0, 5.0, "medical", o) == Some(s);
    assert s.deduction == Fixed(Decimal(false, 500, 2));
    assert Max(0.0, 200.0 - 5.0) == 195.0;
    assert s.finalGpaScore == Fixed(Decimal(false, 19500, 2));
    assert 200.0 / 200.0 * 100.0 == 100.0;
    assert s.percentage == Fixed(Decimal(false, 1000, 1));
  }
}
