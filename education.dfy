/**
 * Grade arithmetic for Bangladeshi SSC/HSC and university results: the mark-to-point
 * scale, the unweighted GPA over the subjects filled so far, the credit-weighted CGPA,
 * and the linear percentage <-> GPA converters. Results are the 2-decimal strings the
 * calculators print, as `Decimal`s.
 */
module Education {
  import opened Numeric

  /** A subject row of the GPA form; `marks` is None while the field is empty or not a number. */
  datatype Subject = Subject(marks: Option<real>)

  /** A course row of the CGPA form; either field is None while empty or not a number. */
  datatype Course = Course(grade: Option<real>, credit: Option<real>)

  /** A course with both fields entered. */
  datatype Graded = Graded(grade: real, credit: real)

  // ---------------------------------------------------------------------------
  // Grade scale

  /** The grade point of a mark: a seven-band step function, each band closed below. */
  function GradePoint(marks: real): (gp: real)
    ensures 0.0 <= gp <= 5.0
    ensures gp in {0.0, 1.0, 2.0, 3.0, 3.5, 4.0, 5.0}
  {
    if marks >= 80.0 then 5.0
    else if marks >= 70.0 then 4.0
    else if marks >= 60.0 then 3.5
    else if marks >= 50.0 then 3.0
    else if marks >= 40.0 then 2.0
    else if marks >= 33.0 then 1.0
    else 0.0
  }

  /** Each grade point is given exactly on its band of marks. */
  lemma GradePointBands(m: real)
    ensures GradePoint(m) == 5.0 <==> m >= 80.0
    ensures GradePoint(m) == 4.0 <==> 70.0 <= m < 80.0
    ensures GradePoint(m) == 3.5 <==> 60.0 <= m < 70.0
    ensures GradePoint(m) == 3.0 <==> 50.0 <= m < 60.0
    ensures GradePoint(m) == 2.0 <==> 40.0 <= m < 50.0
    ensures GradePoint(m) == 1.0 <==> 33.0 <= m < 40.0
    ensures GradePoint(m) == 0.0 <==> m < 33.0
  {
  }

  /** A higher mark never earns a lower grade point. */
  lemma GradePointMonotone(a: real, b: real)
    requires a <= b
    ensures GradePoint(a) <= GradePoint(b)
  {
  }

  /** Lower bounds are inclusive: 80 is an A+ while 79.9 is not. */
  lemma GradePointBoundary()
    ensures GradePoint(80.0) == 5.0 && GradePoint(79.9) == 4.0
    ensures GradePoint(33.0) == 1.0 && GradePoint(32.9) == 0.0
  {
  }

  // ---------------------------------------------------------------------------
  // GPA: unweighted mean over filled subjects

  /** The marks of the subjects whose field holds a number, in order. */
  function FilledMarks(subjects: seq<Subject>): (ms: seq<real>)
    ensures |ms| <= |subjects|
  {
    if subjects == [] then []
    else
      var rest := FilledMarks(subjects[1..]);
      match subjects[0].marks
      case None => rest
      case Some(m) => [m] + rest
  }

  /** The filter keeps exactly the marks of the subjects holding a number, so it is empty exactly when none does. */
  lemma {:induction false} FilledMarksKeeps(subjects: seq<Subject>)
    ensures forall m :: m in FilledMarks(subjects) <==> Subject(Some(m)) in subjects
    ensures FilledMarks(subjects) == [] <==> forall k :: 0 <= k < |subjects| ==> subjects[k].marks.None?
  {
    if subjects != [] {
      FilledMarksKeeps(subjects[1..]);
      assert subjects == [subjects[0]] + subjects[1..];
    }
  }

  lemma {:induction false} FilledMarksAppend(a: seq<Subject>, b: seq<Subject>)
    ensures FilledMarks(a + b) == FilledMarks(a) + FilledMarks(b)
  {
    if a == [] {
      assert a + b == b;
    } else {
      assert (a + b)[0] == a[0];
      assert (a + b)[1..] == a[1..] + b;
      FilledMarksAppend(a[1..], b);
    }
  }

  /** The sum of the grade points of some marks; it lies between 0 and 5 per mark. */
  function TotalPoints(ms: seq<real>): (t: real)
    ensures 0.0 <= t <= 5.0 * (|ms| as real)
  {
    if ms == [] then 0.0 else GradePoint(ms[0]) + TotalPoints(ms[1..])
  }

  /** The GPA before formatting: the mean grade point of the filled subjects. */
  function GpaMean(subjects: seq<Subject>): (g: real)
    requires |FilledMarks(subjects)| > 0
    ensures 0.0 <= g <= 5.0
  {
    var ms := FilledMarks(subjects);
    var n := |ms| as real;
    DivWithin(TotalPoints(ms), n, 0.0, 5.0);
    TotalPoints(ms) / n
  }

  /** `calculateGPA`: "0.00" when no subject is filled, otherwise the mean to two decimals. */
  function CalculateGpa(subjects: seq<Subject>): (d: Decimal)
    ensures |FilledMarks(subjects)| == 0 ==> d == Zero2
    ensures d.places == 2 && !d.negative && d.magnitude <= 500
  {
    if |FilledMarks(subjects)| == 0 then Zero2
    else
      SmallScales(GpaMean(subjects));
      ToFixedAtMost(GpaMean(subjects), 2, 500);
      ToFixed(GpaMean(subjects), 2)
  }

  /** A subject left empty, wherever it stands, does not change the GPA. */
  lemma GpaIgnoresUnfilled(before: seq<Subject>, after: seq<Subject>)
    ensures CalculateGpa(before + [Subject(None)] + after) == CalculateGpa(before + after)
  {
    var with := before + [Subject(None)] + after;
    FilledMarksSkipsEmpty(before, after);
    if |FilledMarks(with)| > 0 {
      assert GpaMean(with) == GpaMean(before + after);
    }
  }

  /** "0.00" whenever no subject row holds a number. */
  lemma GpaPlaceholder(subjects: seq<Subject>)
    requires forall k :: 0 <= k < |subjects| ==> subjects[k].marks.None?
    ensures CalculateGpa(subjects) == Zero2
  {
    FilledMarksKeeps(subjects);
  }

  /** The filter drops an empty subject wherever it stands. */
  lemma FilledMarksSkipsEmpty(before: seq<Subject>, after: seq<Subject>)
    ensures FilledMarks(before + [Subject(None)] + after) == FilledMarks(before + after)
  {
    FilledMarksAppend(before + [Subject(None)], after);
    FilledMarksAppend(before, [Subject(None)]);
    FilledMarksAppend(before, after);
    assert FilledMarks([Subject(None)]) == [];
  }

  /** Concrete values: no subjects, one empty subject, and an 80/65 pair averaging 4.25. */
  lemma GpaExamples()
    ensures CalculateGpa([]) == Zero2
    ensures CalculateGpa([Subject(None)]) == Zero2
    ensures CalculateGpa([Subject(Some(80.0)), Subject(Some(65.0))]) == Decimal(false, 425, 2)
  {
    var s := [Subject(Some(80.0)), Subject(Some(65.0))];
    assert FilledMarks(s[1..][1..]) == [];
    assert FilledMarks(s) == [80.0, 65.0];
    assert TotalPoints([80.0, 65.0][1..][1..]) == 0.0;
    assert TotalPoints([80.0, 65.0]) == 8.5;
    ToFixedExact(8.5 / 2.0, 2, 425);
  }

  // ---------------------------------------------------------------------------
  // CGPA: credit-weighted mean over courses with both fields

  /** The courses whose grade and credit are both numbers, in order. */
  function FilledCourses(courses: seq<Course>): (gs: seq<Graded>)
    ensures |gs| <= |courses|
  {
    if courses == [] then []
    else
      var rest := FilledCourses(courses[1..]);
      var c := courses[0];
      if c.grade.Some? && c.credit.Some? then [Graded(c.grade.value, c.credit.value)] + rest else rest
  }

  /** The filter keeps exactly the courses with both fields, so it is empty exactly when none has both. */
  lemma {:induction false} FilledCoursesKeeps(courses: seq<Course>)
    ensures forall g, c :: Graded(g, c) in FilledCourses(courses) <==> Course(Some(g), Some(c)) in courses
    ensures FilledCourses(courses) == [] <==> forall k :: 0 <= k < |courses| ==> courses[k].grade.None? || courses[k].credit.None?
  {
    if courses != [] {
      FilledCoursesKeeps(courses[1..]);
      assert courses == [courses[0]] + courses[1..];
    }
  }

  lemma {:induction false} FilledCoursesAppend(a: seq<Course>, b: seq<Course>)
    ensures FilledCourses(a + b) == FilledCourses(a) + FilledCourses(b)
  {
    if a == [] {
      assert a + b == b;
    } else {
      assert (a + b)[0] == a[0];
      assert (a + b)[1..] == a[1..] + b;
      FilledCoursesAppend(a[1..], b);
    }
  }

  /** Sum of grade times credit, accumulated from the first course on. */
  function Points(gs: seq<Graded>): real
  {
    if gs == [] then 0.0 else Points(gs[..|gs| - 1]) + gs[|gs| - 1].grade * gs[|gs| - 1].credit
  }

  /** Sum of credits, accumulated from the first course on. */
  function Credits(gs: seq<Graded>): real
  {
    if gs == [] then 0.0 else Credits(gs[..|gs| - 1]) + gs[|gs| - 1].credit
  }

  /**
   * The CGPA before formatting: Points / Credits, or None where the calculator prints
   * the "0.00" placeholder (no filled course, or a total credit that is not positive).
   */
  function WeightedMean(courses: seq<Course>): (m: Option<real>)
    ensures m.None? <==> |FilledCourses(courses)| == 0 || Credits(FilledCourses(courses)) <= 0.0
  {
    var gs := FilledCourses(courses);
    if |gs| == 0 then None
    else if Credits(gs) > 0.0 then Some(Points(gs) / Credits(gs))
    else None
  }

  /** The string `calculateCGPA` prints. */
  function Cgpa(courses: seq<Course>): (d: Decimal)
    ensures d.places == 2
    ensures WeightedMean(courses).None? ==> d == Zero2
    ensures WeightedMean(courses).Some? ==>
              (d.negative <==> WeightedMean(courses).value < 0.0) &&
              (WeightedMean(courses).value >= 0.0 ==>
                 WeightedMean(courses).value * 100.0 - 0.5 < d.magnitude as real <= WeightedMean(courses).value * 100.0 + 0.5)
  {
    SmallScales(Abs(if WeightedMean(courses).Some? then WeightedMean(courses).value else 0.0));
    match WeightedMean(courses)
    case None => Zero2
    case Some(m) => ToFixed(m, 2)
  }

  /** `calculateCGPA`: filters, then accumulates points and credits in one pass. */
  method CalculateCgpa(courses: seq<Course>) returns (d: Decimal)
    ensures d == Cgpa(courses)
  {
    var filled := FilledCourses(courses);
    if |filled| == 0 {
      return Zero2;
    }
    var totalPoints := 0.0;
    var totalCredits := 0.0;
    for k := 0 to |filled|
      invariant totalPoints == Points(filled[..k])
      invariant totalCredits == Credits(filled[..k])
    {
      assert filled[..k + 1][..k] == filled[..k];
      totalPoints := totalPoints + filled[k].grade * filled[k].credit;
      totalCredits := totalCredits + filled[k].credit;
    }
    assert filled[..|filled|] == filled;
    d := if totalCredits > 0.0 then ToFixed(totalPoints / totalCredits, 2) else Zero2;
  }

  /** One more course keeps the bounds: adding grade*credit to the points and credit to the credits. */
  lemma WithinStep(points: real, credits: real, grade: real, credit: real, lo: real, hi: real)
    requires lo * credits <= points <= hi * credits
    requires credit > 0.0 && lo <= grade <= hi
    ensures lo * (credits + credit) <= points + grade * credit <= hi * (credits + credit)
  {
    MulLeft(credit, lo, grade);
    MulLeft(credit, grade, hi);
    assert lo * (credits + credit) == lo * credits + lo * credit;
    assert hi * (credits + credit) == hi * credits + hi * credit;
  }

  /** With positive credits, grades within [lo, hi] keep the sums within lo and hi times the credits. */
  lemma {:induction false} PointsWithin(gs: seq<Graded>, lo: real, hi: real)
    requires forall k :: 0 <= k < |gs| ==> gs[k].credit > 0.0 && lo <= gs[k].grade <= hi
    ensures lo * Credits(gs) <= Points(gs) <= hi * Credits(gs)
    ensures gs != [] ==> Credits(gs) > 0.0
  {
    if gs != [] {
      var n := |gs| - 1;
      PointsWithin(gs[..n], lo, hi);
      WithinStep(Points(gs[..n]), Credits(gs[..n]), gs[n].grade, gs[n].credit, lo, hi);
    }
  }

  /** A weighted mean lies between the least and the greatest grade. */
  lemma WeightedMeanWithin(courses: seq<Course>, lo: real, hi: real)
    requires |FilledCourses(courses)| > 0
    requires forall g :: g in FilledCourses(courses) ==> g.credit > 0.0 && lo <= g.grade <= hi
    ensures WeightedMean(courses).Some?
    ensures lo <= WeightedMean(courses).value <= hi
  {
    var gs := FilledCourses(courses);
    forall k | 0 <= k < |gs|
      ensures gs[k].credit > 0.0 && lo <= gs[k].grade <= hi
    {
      assert gs[k] in gs;
    }
    MeanWithin(gs, lo, hi);
  }

  /** The mean of grades with positive credits lies between the grades' bounds. */
  lemma MeanWithin(gs: seq<Graded>, lo: real, hi: real)
    requires gs != []
    requires forall k :: 0 <= k < |gs| ==> gs[k].credit > 0.0 && lo <= gs[k].grade <= hi
    ensures Credits(gs) > 0.0 && lo <= Points(gs) / Credits(gs) <= hi
  {
    PointsWithin(gs, lo, hi);
    DivWithin(Points(gs), Credits(gs), lo, hi);
  }

  /** So a CGPA of whole-number-bounded grades prints within those bounds. */
  lemma CgpaWithin(courses: seq<Course>, lo: nat, hi: nat)
    requires |FilledCourses(courses)| > 0
    requires forall g :: g in FilledCourses(courses) ==> g.credit > 0.0 && lo as real <= g.grade <= hi as real
    ensures !Cgpa(courses).negative
    ensures lo * 100 <= Cgpa(courses).magnitude <= hi * 100
  {
    WeightedMeanWithin(courses, lo as real, hi as real);
    var m := WeightedMean(courses).value;
    SmallScales(m);
    ToFixedAtMost(m, 2, hi * 100);
    ToFixedAtLeast(m, 2, lo * 100);
  }

  /** "0.00" whenever no course row has both its grade and its credit. */
  lemma CgpaPlaceholder(courses: seq<Course>)
    requires forall k :: 0 <= k < |courses| ==> courses[k].grade.None? || courses[k].credit.None?
    ensures Cgpa(courses) == Zero2
  {
    FilledCoursesKeeps(courses);
  }

  /** The filter drops a course missing a field wherever it stands. */
  lemma FilledCoursesSkipsUnfilled(before: seq<Course>, c: Course, after: seq<Course>)
    requires c.grade.None? || c.credit.None?
    ensures FilledCourses(before + [c] + after) == FilledCourses(before + after)
  {
    FilledCoursesAppend(before + [c], after);
    FilledCoursesAppend(before, [c]);
    FilledCoursesAppend(before, after);
    assert FilledCourses([c]) == [];
  }

  /** A course missing its grade or its credit, wherever it stands, does not change the CGPA. */
  lemma CgpaIgnoresUnfilled(before: seq<Course>, c: Course, after: seq<Course>)
    requires c.grade.None? || c.credit.None?
    ensures Cgpa(before + [c] + after) == Cgpa(before + after)
  {
    var with := before + [c] + after;
    FilledCoursesSkipsUnfilled(before, c, after);
    assert WeightedMean(with) == WeightedMean(before + after);
  }

  /** Grades 4.0 and 2.0 on three credits each give "3.00"; zero total credit gives "0.00". */
  lemma CgpaExamples()
    ensures Cgpa([Course(Some(4.0), Some(3.0)), Course(Some(2.0), Some(3.0))]) == Decimal(false, 300, 2)
    ensures Cgpa([Course(Some(4.0), Some(0.0))]) == Zero2
    ensures Cgpa([Course(Some(4.0), None)]) == Zero2
  {
    var cs := [Course(Some(4.0), Some(3.0)), Course(Some(2.0), Some(3.0))];
    assert FilledCourses(cs[1..][1..]) == [];
    var gs := [Graded(4.0, 3.0), Graded(2.0, 3.0)];
    assert FilledCourses(cs) == gs;
    assert gs[..1][..0] == [];
    assert Points(gs) == 18.0 && Credits(gs) == 6.0;
    ToFixedExact(18.0 / 6.0, 2, 300);
    var one := [Course(Some(4.0), Some(0.0))];
    assert FilledCourses(one) == [Graded(4.0, 0.0)];
    assert [Graded(4.0, 0.0)][..0] == [];
    assert FilledCourses([Course(Some(4.0), None)]) == [];
  }

  // ---------------------------------------------------------------------------
  // Converters

  /** A percentage as a GPA before formatting: negatives count as 0, at most 5.00. */
  function GpaOfPercentage(p: real): (g: real)
    ensures 0.0 <= g <= 5.0
    ensures 0.0 <= p <= 100.0 ==> g * 20.0 == p
    ensures p <= 0.0 ==> g == 0.0
    ensures p >= 100.0 ==> g == 5.0
  {
    Min(5.0, Max(0.0, p) / 20.0)
  }

  /** A GPA as a percentage before formatting: negatives count as 0, at most 100. */
  function PercentageOfGpa(g: real): (p: real)
    ensures 0.0 <= p <= 100.0
    ensures 0.0 <= g <= 5.0 ==> p == g * 20.0
    ensures g <= 0.0 ==> p == 0.0
    ensures g >= 5.0 ==> p == 100.0
  {
    Min(100.0, Max(0.0, g) * 20.0)
  }

  /** `percentageToGPA`: "0.00" for an empty or non-numeric field. */
  function PercentageToGpa(percentage: Option<real>): (d: Decimal)
    ensures d.places == 2 && !d.negative && d.magnitude <= 500
    ensures percentage.None? ==> d == Zero2
  {
    match percentage
    case None => Zero2
    case Some(p) =>
      SmallScales(GpaOfPercentage(p));
      ToFixedAtMost(GpaOfPercentage(p), 2, 500);
      ToFixed(GpaOfPercentage(p), 2)
  }

  /** `gpaToPercentage`: "0.00" for an empty or non-numeric field. */
  function GpaToPercentage(gpa: Option<real>): (d: Decimal)
    ensures d.places == 2 && !d.negative && d.magnitude <= 10000
    ensures gpa.None? ==> d == Zero2
  {
    match gpa
    case None => Zero2
    case Some(g) =>
      SmallScales(PercentageOfGpa(g));
      ToFixedAtMost(PercentageOfGpa(g), 2, 10000);
      ToFixed(PercentageOfGpa(g), 2)
  }

  /** Before formatting, the two conversions undo each other on [0, 100] and on [0, 5]. */
  lemma ConvertersRoundTrip(p: real, g: real)
    ensures 0.0 <= p <= 100.0 ==> PercentageOfGpa(GpaOfPercentage(p)) == p
    ensures 0.0 <= g <= 5.0 ==> GpaOfPercentage(PercentageOfGpa(g)) == g
  {
  }

  /**
   * After formatting: a two-decimal GPA in [0, 5], converted to a percentage and the
   * printed percentage converted back, prints as the same GPA.
   */
  lemma PrintedGpaRoundTrip(k: nat)
    requires k <= 500
    ensures GpaToPercentage(Some(Value(Decimal(false, k, 2)))) == Decimal(false, 20 * k, 2)
    ensures PercentageToGpa(Some(Value(GpaToPercentage(Some(Value(Decimal(false, k, 2))))))) == Decimal(false, k, 2)
  {
    var g := (k as real) / 100.0;
    SmallScales(k as real);
    SmallScales((20 * k) as real);
    SmallScales(g);
    SmallScales(((20 * k) as real) / 100.0);
    assert Value(Decimal(false, k, 2)) == g;
    assert PercentageOfGpa(g) == ((20 * k) as real) / 100.0;
    ToFixedExact(((20 * k) as real) / 100.0, 2, 20 * k);
    assert Value(Decimal(false, 20 * k, 2)) == ((20 * k) as real) / 100.0;
    assert GpaOfPercentage(((20 * k) as real) / 100.0) == g;
    ToFixedExact(g, 2, k);
  }

  /** 4.00 is 80 percent and 80 percent is 4.00; an empty field gives "0.00". */
  lemma ConverterExamples()
    ensures GpaToPercentage(Some(4.0)) == Decimal(false, 8000, 2)
    ensures PercentageToGpa(Some(80.0)) == Decimal(false, 400, 2)
    ensures PercentageToGpa(Some(-10.0)) == Zero2
    ensures PercentageToGpa(Some(120.0)) == Decimal(false, 500, 2)
  {
    ToFixedExact(80.0, 2, 8000);
    ToFixedExact(4.0, 2, 400);
    ToFixedExact(0.0, 2, 0);
    ToFixedExact(5.0, 2, 500);
  }
}
