/**
 * Body mass index: weight over height squared, in kilograms and metres or, with the
 * factor 703, in pounds and inches; the index is printed to one decimal and sorted
 * into four bands, each with a colour and a piece of advice.
 */
module Health {
  import opened Numeric

  /**
   * The height argument: a plain value (`parseFloat` of a string or number, None for
   * NaN), or an object with feet and inches.
   */
  datatype Height = Plain(value: Option<real>) | FeetInches(feet: Option<real>, inches: Option<real>)

  datatype BmiDetails = BmiDetails(score: real, status: string, color: string, recommendation: string)

  /** `parseFloat(x) || 0`. */
  function OrZero(x: Option<real>): real
  {
    if Truthy(x) then x.value else 0.0
  }

  /** Height in centimetres for the metric system: `parseFloat` of an object is NaN. */
  function Centimetres(height: Height): Option<real>
  {
    match height
    case Plain(v) => v
    case FeetInches(_, _) => None
  }

  /** Height in inches for any other unit system: feet times 12 plus inches, a missing part as 0. */
  function Inches(height: Height): Option<real>
  {
    match height
    case Plain(v) => v
    case FeetInches(feet, inches) => Some(OrZero(feet) * 12.0 + OrZero(inches))
  }

  /** A converted input the calculator accepts: a number, and above 0. */
  predicate Positive(x: Option<real>)
  {
    x.Some? && x.value > 0.0
  }

  /** The index in kilograms and centimetres. */
  function MetricIndex(kg: real, cm: real): real
    requires cm > 0.0
  {
    var meters := cm / 100.0;
    SquarePositive(meters);
    kg / Square(meters)
  }

  /** The index in pounds and inches. */
  function ImperialIndex(pounds: real, inches: real): real
    requires inches > 0.0
  {
    SquarePositive(inches);
    pounds / Square(inches) * 703.0
  }

  /** The index printed to one decimal and read back: `parseFloat(bmi.toFixed(1))`. */
  function Score(bmiValue: real): (s: real)
    ensures bmiValue >= 0.0 ==> s * 10.0 == ToFixed(bmiValue, 1).magnitude as real
  {
    SmallScales(ToFixed(bmiValue, 1).magnitude as real);
    Value(ToFixed(bmiValue, 1))
  }

  datatype Category = Underweight | Normal | Overweight | Obese

  /** The band of a printed score: below 18.5, 18.5 to 24.9, 25 to 29.9, and everything else. */
  function Classify(bmi: real): (c: Category)
    ensures c == Underweight <==> bmi < 18.5
    ensures c == Normal <==> 18.5 <= bmi <= 24.9
    ensures c == Overweight <==> 25.0 <= bmi <= 29.9
    ensures c == Obese <==> (24.9 < bmi < 25.0) || bmi > 29.9
  {
    if bmi < 18.5 then Underweight
    else if bmi >= 18.5 && bmi <= 24.9 then Normal
    else if bmi >= 25.0 && bmi <= 29.9 then Overweight
    else Obese
  }

  function StatusText(c: Category): string
  {
    match c
    case Underweight => "Underweight"
    case Normal => "Normal"
    case Overweight => "Overweight"
    case Obese => "Obese"
  }

  function Color(c: Category): string
  {
    match c
    case Underweight => "text-blue-500"
    case Normal => "text-emerald-500"
    case Overweight => "text-amber-500"
    case Obese => "text-red-500"
  }

  function Recommendation(c: Category): string
  {
    match c
    case Underweight => "Consider consulting a nutritionist to gain weight healthily."
    case Normal => "Great job! Maintain your balanced diet and exercise routine."
    case Overweight => "Aim for regular physical activity and a balanced diet."
    case Obese => "Please consult a healthcare provider for professional advice."
  }

  /** `getBMIDetails`: the printed score with its band's status, colour and advice. */
  function GetBmiDetails(bmiValue: real): (d: BmiDetails)
    ensures d.score == Score(bmiValue)
    ensures d.status in {"Underweight", "Normal", "Overweight", "Obese"}
    ensures exists c :: d.status == StatusText(c) && d.color == Color(c) && d.recommendation == Recommendation(c)
  {
    var bmi := Score(bmiValue);
    var c := Classify(bmi);
    BmiDetails(bmi, StatusText(c), Color(c), Recommendation(c))
  }

  /** Each band has its own status, so the status names the band. */
  lemma StatusTextsDistinct(c1: Category, c2: Category)
    requires c1 != c2
    ensures StatusText(c1) != StatusText(c2)
  {
    assert StatusText(c1)[1] != StatusText(c2)[1];
  }

  /** A status always comes with the same colour and the same advice. */
  lemma StatusFixesColourAndAdvice(a: real, b: real)
    requires GetBmiDetails(a).status == GetBmiDetails(b).status
    ensures GetBmiDetails(a).color == GetBmiDetails(b).color
    ensures GetBmiDetails(a).recommendation == GetBmiDetails(b).recommendation
  {
    var ca, cb := Classify(Score(a)), Classify(Score(b));
    if ca != cb {
      StatusTextsDistinct(ca, cb);
    }
  }

  /**
   * `calculateBMI(weight, height, unitSystem)`: None (null) unless the weight and the
   * height are positive numbers; otherwise the details of the metric or the imperial index.
   */
  function CalculateBmi(weight: Option<real>, height: Height, unitSystem: string): (r: Option<BmiDetails>)
    ensures unitSystem == "metric" ==>
              (r.Some? <==> Positive(weight) && Positive(Centimetres(height)))
    ensures unitSystem != "metric" ==>
              (r.Some? <==> Positive(weight) && Positive(Inches(height)))
    ensures r.Some? && unitSystem == "metric" ==>
              r.value == GetBmiDetails(MetricIndex(weight.value, Centimetres(height).value))
    ensures r.Some? && unitSystem != "metric" ==>
              r.value == GetBmiDetails(ImperialIndex(weight.value, Inches(height).value))
  {
    if !Truthy(weight) || weight.value <= 0.0 then None
    else
      var w := weight.value;
      if unitSystem == "metric" then
        var cm := Centimetres(height);
        if !Truthy(cm) || cm.value <= 0.0 then None
        else Some(GetBmiDetails(MetricIndex(w, cm.value)))
      else
        var inches := Inches(height);
        if !Truthy(inches) || inches.value <= 0.0 then None
        else Some(GetBmiDetails(ImperialIndex(w, inches.value)))
  }

  /**
   * The bands leave no gap: by the unrounded index, Underweight is below 18.45,
   * Normal from 18.45 up to 24.95, Overweight from 24.95 up to 29.95, and Obese
   * from 29.95 on, because the index is rounded to tenths before it is compared.
   */
  lemma StatusBands(bmi: real)
    requires bmi >= 0.0
    ensures Classify(Score(bmi)) == Underweight <==> bmi < 18.45
    ensures Classify(Score(bmi)) == Normal <==> 18.45 <= bmi < 24.95
    ensures Classify(Score(bmi)) == Overweight <==> 24.95 <= bmi < 29.95
    ensures Classify(Score(bmi)) == Obese <==> 29.95 <= bmi
  {
    var m := ToFixed(bmi, 1).magnitude;
    SmallScales(bmi);
    assert m == Round(bmi * 10.0);
    var s := Score(bmi);
    assert s * 10.0 == m as real;
    RoundAtLeast(bmi * 10.0, 185);
    RoundAtLeast(bmi * 10.0, 250);
    RoundAtLeast(bmi * 10.0, 300);
    assert s < 18.5 <==> m < 185;
    assert s <= 24.9 <==> m < 250;
    assert s <= 29.9 <==> m < 300;
  }

  /** The same bands, read off the status the details show. */
  lemma StatusShown(bmi: real)
    requires bmi >= 0.0
    ensures GetBmiDetails(bmi).status == "Underweight" <==> bmi < 18.45
    ensures GetBmiDetails(bmi).status == "Normal" <==> 18.45 <= bmi < 24.95
    ensures GetBmiDetails(bmi).status == "Overweight" <==> 24.95 <= bmi < 29.95
    ensures GetBmiDetails(bmi).status == "Obese" <==> 29.95 <= bmi
  {
    StatusBands(bmi);
    var c := Classify(Score(bmi));
    if c != Underweight { StatusTextsDistinct(c, Underweight); }
    if c != Normal { StatusTextsDistinct(c, Normal); }
    if c != Overweight { StatusTextsDistinct(c, Overweight); }
    if c != Obese { StatusTextsDistinct(c, Obese); }
  }

  /** Both indexes grow with the weight at a fixed height. */
  lemma IndexMonotoneInWeight(w1: real, w2: real, h: real)
    requires 0.0 <= w1 <= w2 && h > 0.0
    ensures 0.0 <= MetricIndex(w1, h) <= MetricIndex(w2, h)
    ensures 0.0 <= ImperialIndex(w1, h) <= ImperialIndex(w2, h)
  {
    var meters := h / 100.0;
    SquarePositive(meters);
    SquarePositive(h);
    DivNonNegative(w1, Square(meters));
    DivMonotone(w1, w2, Square(meters));
    DivNonNegative(w1, Square(h));
    DivMonotone(w1, w2, Square(h));
    MulLeft(703.0, 0.0, w1 / Square(h));
    MulLeft(703.0, w1 / Square(h), w2 / Square(h));
  }

  /** For the same height, a heavier person never gets a lower score. */
  lemma ScoreMonotoneInWeight(w1: real, w2: real, height: Height, unitSystem: string)
    requires 0.0 < w1 <= w2
    requires CalculateBmi(Some(w1), height, unitSystem).Some?
    ensures CalculateBmi(Some(w2), height, unitSystem).Some?
    ensures CalculateBmi(Some(w1), height, unitSystem).value.score <= CalculateBmi(Some(w2), height, unitSystem).value.score
  {
    var i1, i2;
    if unitSystem == "metric" {
      var cm := Centimetres(height).value;
      IndexMonotoneInWeight(w1, w2, cm);
      i1, i2 := MetricIndex(w1, cm), MetricIndex(w2, cm);
    } else {
      var inches := Inches(height).value;
      IndexMonotoneInWeight(w1, w2, inches);
      i1, i2 := ImperialIndex(w1, inches), ImperialIndex(w2, inches);
    }
    assert CalculateBmi(Some(w1), height, unitSystem) == Some(GetBmiDetails(i1));
    assert CalculateBmi(Some(w2), height, unitSystem) == Some(GetBmiDetails(i2));
    ScoreTracksIndex(i1, i2);
  }

  /** For the same weight, a taller person never gets a higher metric score. */
  lemma ScoreAntitoneInHeight(weight: real, cm1: real, cm2: real)
    requires weight > 0.0 && 0.0 < cm1 <= cm2
    ensures CalculateBmi(Some(weight), Plain(Some(cm2)), "metric").value.score
         <= CalculateBmi(Some(weight), Plain(Some(cm1)), "metric").value.score
  {
    var a, b := cm1 / 100.0, cm2 / 100.0;
    SquareMonotone(a, b);
    DivAntitone(weight, Square(a), Square(b));
    DivNonNegative(weight, Square(b));
    ScoreTracksIndex(MetricIndex(weight, cm2), MetricIndex(weight, cm1));
  }

  /** A larger non-negative index never prints as a smaller score. */
  lemma ScoreTracksIndex(i1: real, i2: real)
    requires 0.0 <= i1 <= i2
    ensures Score(i1) <= Score(i2)
  {
    ToFixedMonotone(i1, i2, 1);
  }

  /** Feet and inches are read as feet times 12 plus inches; a missing part counts as 0. */
  lemma FeetAndInches()
    ensures Inches(FeetInches(Some(5.0), Some(10.0))) == Some(70.0)
    ensures Inches(FeetInches(Some(6.0), None)) == Some(72.0)
    ensures Inches(FeetInches(None, None)) == Some(0.0)
    ensures CalculateBmi(Some(70.0), FeetInches(None, None), "imperial").None?
    ensures CalculateBmi(Some(70.0), FeetInches(Some(5.0), Some(10.0)), "metric").None?
  {
  }

  /** 70 kg at 175 cm is 22.857..., printed 22.9, Normal; no weight, or no height, gives null. */
  lemma BmiExamples()
    ensures CalculateBmi(Some(70.0), Plain(Some(175.0)), "metric").value.score == 22.9
    ensures CalculateBmi(Some(70.0), Plain(Some(175.0)), "metric").value.status == "Normal"
    ensures CalculateBmi(Some(0.0), Plain(Some(175.0)), "metric").None?
    ensures CalculateBmi(None, Plain(Some(175.0)), "metric").None?
    ensures CalculateBmi(Some(70.0), Plain(Some(-175.0)), "metric").None?
  {
    var bmi := MetricIndex(70.0, 175.0);
    assert Square(1.75) == 3.0625;
    assert bmi == 70.0 / 3.0625;
    assert Round(bmi * 10.0) == 229;
    assert ToFixed(bmi, 1) == Decimal(false, 229, 1);
    assert Score(bmi) == 22.9;
  }
}
