/**
 * analyze_staff_data: the demographics of the whole workbook (head count, gender counts,
 * age bands), the decision which metrics can be analysed at all, and the per-metric
 * analyses run on the rows that hold that metric's readings.
 */
module Population {
  import opened Wrappers
  import opened Text
  import opened Classify
  import opened Tally
  import opened Cohort
  import opened Records

  // ---------------------------------------------------------------- urine cells

  /**
   * _clean_urine_value: a text cell is stripped and upper-cased, and a blank one becomes
   * missing. The result is already in the form analyze_urine's second upper() leaves alone.
   */
  function CleanUrine(c: Cell): (r: Option<string>)
    ensures r.Some? <==> c.Text? && Trim(c.text) != []
    ensures r.Some? ==> r.value != [] && Upper(r.value) == r.value && Trim(r.value) == r.value
  {
    match c
    case Missing => None
    case Text(t) =>
      var stripped := Trim(t);
      if stripped == [] then None
      else
        UpperIdempotent(stripped);
        TrimUpperCommute(stripped);
        TrimIdempotent(t);
        Some(Upper(stripped))
  }

  // ---------------------------------------------------------------- age bands

  const AgeLabels: seq<string> := ["0-20", "21-30", "31-40", "41-50", "51-60", "61-70"]

  /** The bin edges handed to pd.cut; bin i is (AgeEdges[i], AgeEdges[i + 1]]. */
  const AgeEdges: seq<real> := [0.0, 20.0, 30.0, 40.0, 50.0, 60.0, 70.0]

  function AgeLabelSet(): (labels: set<string>)
    ensures forall l :: l in labels <==> l in AgeLabels
  {
    set l | l in AgeLabels
  }

  /** pd.cut(age, bins=AgeEdges, labels=AgeLabels, right=True) for one age. */
  function AgeGroup(age: Option<real>): Option<string> {
    match age
    case None => None
    case Some(a) =>
      if a <= 0.0 || a > 70.0 then None
      else if a <= 20.0 then Some("0-20")
      else if a <= 30.0 then Some("21-30")
      else if a <= 40.0 then Some("31-40")
      else if a <= 50.0 then Some("41-50")
      else if a <= 60.0 then Some("51-60")
      else Some("61-70")
  }

  /** An age gets label i exactly when it lies in the right-closed bin i. */
  lemma AgeGroupBins(a: real, i: nat)
    requires i < |AgeLabels|
    ensures AgeGroup(Some(a)) == Some(AgeLabels[i]) <==> AgeEdges[i] < a <= AgeEdges[i + 1]
  {
  }

  /** Ages of zero or less, above 70, or missing fall into no band. */
  lemma AgeGroupOutside(age: Option<real>)
    ensures AgeGroup(age).None? <==> age.None? || age.value <= 0.0 || age.value > 70.0
    ensures AgeGroup(age).Some? ==> AgeGroup(age).value in AgeLabels
  {
  }

  // ---------------------------------------------------------------- filtered frames

  /**
   * data_df.dropna(subset=...) followed by the column of categories: the rows for which f
   * gives a value, in order, each labelled with that value and keeping gender and age.
   */
  function LabelBy<C(!new)>(rows: seq<Record>, f: Record -> Option<C>): (out: seq<Labelled<C>>)
    ensures |out| <= |rows|
    ensures out == [] <==> forall i :: 0 <= i < |rows| ==> f(rows[i]).None?
  {
    if rows == [] then []
    else
      var tail := LabelBy(rows[1..], f);
      match f(rows[0])
      case Some(c) => [Labelled(c, rows[0].gender, rows[0].age)] + tail
      case None =>
        assert forall i :: 1 <= i < |rows| ==> rows[i] == rows[1..][i - 1];
        tail
  }

  /** The filtered frame holds exactly the rows f accepts, labelled, with their gender and age. */
  lemma {:induction false} LabelByMembers<C(!new)>(rows: seq<Record>, f: Record -> Option<C>)
    ensures forall r :: r in rows && f(r).Some? ==> Labelled(f(r).value, r.gender, r.age) in LabelBy(rows, f)
    ensures forall x :: x in LabelBy(rows, f) ==>
      exists r :: r in rows && f(r) == Some(x.category) && x == Labelled(x.category, r.gender, r.age)
  {
    if rows != [] {
      LabelByMembers(rows[1..], f);
      assert forall r :: r in rows <==> r == rows[0] || r in rows[1..];
    }
  }

  function GenderOf(r: Record): Option<string> {
    r.gender
  }

  function AgeGroupOf(r: Record): Option<string> {
    AgeGroup(r.age)
  }

  function BpOf(r: Record): Option<BpCategory> {
    if r.systolic.Some? && r.diastolic.Some?
    then Some(CategorizeBp(r.systolic.value, r.diastolic.value))
    else None
  }

  function GlucoseOf(r: Record): Option<GlucoseCategory> {
    if r.bloodGlucose.Some? then Some(CategorizeGlucose(r.bloodGlucose.value)) else None
  }

  function CholesterolOf(r: Record): Option<CholesterolCategory> {
    if r.cholesterol.Some? then Some(CategorizeCholesterol(r.cholesterol.value)) else None
  }

  function BmiOf(r: Record): Option<PopulationBmi> {
    if r.bmi.Some? then Some(CategorizePopulationBmi(r.bmi.value)) else None
  }

  /** A row of the urine frame needs both cleaned results; analyze_urine upper-cases them again. */
  function UrineGlucoseOf(r: Record): Option<string> {
    var g, p := CleanUrine(r.urineGlucose), CleanUrine(r.urineProtein);
    if g.Some? && p.Some? then Some(Upper(g.value)) else None
  }

  function UrineProteinOf(r: Record): Option<string> {
    var g, p := CleanUrine(r.urineGlucose), CleanUrine(r.urineProtein);
    if g.Some? && p.Some? then Some(Upper(p.value)) else None
  }

  // ---------------------------------------------------------------- the staff analysis

  datatype UrineAnalysis = UrineAnalysis(glucose: MetricAnalysis<string>, protein: MetricAnalysis<string>)

  /** The results dictionary of analyze_staff_data. */
  datatype StaffAnalysis = StaffAnalysis(
    companyName: string,
    totalStaff: nat,
    genderCounts: map<string, nat>,
    genderPct: map<string, real>,
    avgAgeByGender: map<string, Option<real>>,
    ageDistribution: map<string, nat>,
    ageDistributionPct: map<string, real>,
    ageByGender: map<string, map<string, nat>>,
    ageByGenderPct: map<string, Option<map<string, real>>>,
    bloodPressure: Option<MetricAnalysis<BpCategory>>,
    bloodSugar: Option<MetricAnalysis<GlucoseCategory>>,
    cholesterol: Option<MetricAnalysis<CholesterolCategory>>,
    bmi: Option<MetricAnalysis<PopulationBmi>>,
    urine: Option<UrineAnalysis>,
    hasCholesterol: bool,
    hasUrine: bool,
    hasBp: bool,
    hasGlucose: bool,
    hasBmi: bool)

  /**
   * groupby(['GENDER', 'AGE_GROUP']).size().unstack(fill_value=0) with the categorical
   * AGE_GROUP: one row for every gender of the workbook, holding that gender's number of
   * rows in each of the six bands; a gender none of whose ages falls in a band gets a row of
   * zeros.
   */
  function AgeByGender(rows: seq<Record>): (t: map<string, map<string, nat>>)
  {
    var banded := LabelBy(rows, AgeGroupOf);
    map g | g in Elements(Genders(LabelBy(rows, GenderOf))) :: CountsIn(Column(OfGender(banded, g)), AgeLabelSet())
  }

  /**
   * age_by_gender.div(age_by_gender.sum(axis=1), axis=0) * 100, unrounded. A row of zeros
   * divides 0 by 0, so its percentages are NaN: None.
   */
  function AgeByGenderPct(rows: seq<Record>): (t: map<string, Option<map<string, real>>>)
    ensures t.Keys == AgeByGender(rows).Keys
  {
    var table, banded := AgeByGender(rows), LabelBy(rows, AgeGroupOf);
    map g | g in table ::
      var n := |OfGender(banded, g)|;
      if n == 0 then None else Some(Percentages(table[g], n))
  }

  function AnalyzeStaffData(wb: Workbook, companyName: string): StaffAnalysis {
    var rows := wb.rows;
    var total := |rows|;
    var gendered := LabelBy(rows, GenderOf);
    var genderCounts := Distribution(Column(gendered));
    var banded := LabelBy(rows, AgeGroupOf);
    var ageCounts := CountsIn(Column(banded), AgeLabelSet());
    var bp, glucose, chol, bmi := LabelBy(rows, BpOf), LabelBy(rows, GlucoseOf), LabelBy(rows, CholesterolOf), LabelBy(rows, BmiOf);
    var urineGlucose, urineProtein := LabelBy(rows, UrineGlucoseOf), LabelBy(rows, UrineProteinOf);
    var hasCholesterol := wb.hasCholesterolColumn && chol != [];
    var hasUrine := wb.hasUrineColumns && urineGlucose != [];
    StaffAnalysis(
      companyName, total,
      genderCounts, Percentages(genderCounts, total), AverageAges(gendered),
      ageCounts, Percentages(ageCounts, total),
      AgeByGender(rows), AgeByGenderPct(rows),
      if bp != [] then Some(Analyze(bp)) else None,
      if glucose != [] then Some(Analyze(glucose)) else None,
      if hasCholesterol then Some(Analyze(chol)) else None,
      if bmi != [] then Some(Analyze(bmi)) else None,
      if hasUrine then Some(UrineAnalysis(Analyze(urineGlucose), Analyze(urineProtein))) else None,
      hasCholesterol, hasUrine, bp != [], glucose != [], bmi != [])
  }

  // ---------------------------------------------------------------- what it means

  /**
   * Blood pressure, blood sugar and BMI are analysed iff some row holds all of that metric's
   * readings; otherwise the result is None.
   */
  lemma AvailabilityOfReadings(wb: Workbook, companyName: string)
    ensures var a, rows := AnalyzeStaffData(wb, companyName), wb.rows;
      && (a.hasBp <==> exists i :: 0 <= i < |rows| && rows[i].systolic.Some? && rows[i].diastolic.Some?)
      && (a.bloodPressure.Some? <==> a.hasBp)
      && (a.hasGlucose <==> exists i :: 0 <= i < |rows| && rows[i].bloodGlucose.Some?)
      && (a.bloodSugar.Some? <==> a.hasGlucose)
      && (a.hasBmi <==> exists i :: 0 <= i < |rows| && rows[i].bmi.Some?)
      && (a.bmi.Some? <==> a.hasBmi)
  {
    var rows := wb.rows;
    assert forall i :: 0 <= i < |rows| ==> (BpOf(rows[i]).Some? <==> rows[i].systolic.Some? && rows[i].diastolic.Some?);
    assert forall i :: 0 <= i < |rows| ==> (GlucoseOf(rows[i]).Some? <==> rows[i].bloodGlucose.Some?);
    assert forall i :: 0 <= i < |rows| ==> (BmiOf(rows[i]).Some? <==> rows[i].bmi.Some?);
  }

  /**
   * Cholesterol is analysed iff the column exists and some row holds a reading; urine iff
   * both columns exist and some row holds a non-blank glucose and a non-blank protein result.
   */
  lemma AvailabilityOfOptionalColumns(wb: Workbook, companyName: string)
    ensures var a, rows := AnalyzeStaffData(wb, companyName), wb.rows;
      && (a.hasCholesterol <==> wb.hasCholesterolColumn && exists i :: 0 <= i < |rows| && rows[i].cholesterol.Some?)
      && (a.cholesterol.Some? <==> a.hasCholesterol)
      && (a.hasUrine <==> wb.hasUrineColumns && exists i :: 0 <= i < |rows| && HasUrineResults(rows[i]))
      && (a.urine.Some? <==> a.hasUrine)
  {
    CholesterolAvailability(wb, companyName);
    UrineAvailability(wb, companyName);
  }

  lemma CholesterolAvailability(wb: Workbook, companyName: string)
    ensures var a, rows := AnalyzeStaffData(wb, companyName), wb.rows;
      && (a.hasCholesterol <==> wb.hasCholesterolColumn && exists i :: 0 <= i < |rows| && rows[i].cholesterol.Some?)
      && (a.cholesterol.Some? <==> a.hasCholesterol)
  {
    var rows := wb.rows;
    assert forall i :: 0 <= i < |rows| ==> (CholesterolOf(rows[i]).Some? <==> rows[i].cholesterol.Some?);
  }

  lemma UrineAvailability(wb: Workbook, companyName: string)
    ensures var a, rows := AnalyzeStaffData(wb, companyName), wb.rows;
      && (a.hasUrine <==> wb.hasUrineColumns && exists i :: 0 <= i < |rows| && HasUrineResults(rows[i]))
      && (a.urine.Some? <==> a.hasUrine)
  {
    var rows := wb.rows;
    assert forall i :: 0 <= i < |rows| ==> (UrineGlucoseOf(rows[i]).Some? <==> HasUrineResults(rows[i]));
  }

  /** Both urine cells hold text that is not blank once stripped. */
  predicate HasUrineResults(r: Record) {
    && r.urineGlucose.Text? && Trim(r.urineGlucose.text) != []
    && r.urineProtein.Text? && Trim(r.urineProtein.text) != []
  }

  /** analyze_urine's upper() changes nothing: the cleaned results are already upper case. */
  lemma UrineResultsAsCleaned(r: Record)
    ensures UrineGlucoseOf(r).Some? <==> UrineProteinOf(r).Some?
    ensures UrineGlucoseOf(r).Some? ==>
      UrineGlucoseOf(r) == CleanUrine(r.urineGlucose) && UrineProteinOf(r) == CleanUrine(r.urineProtein)
  {
  }

  /** Gender counts: one entry per gender that occurs, holding its number of rows. */
  lemma GenderCountEntries(wb: Workbook, companyName: string, g: string)
    ensures var a, rows := AnalyzeStaffData(wb, companyName), wb.rows;
      && a.totalStaff == |rows|
      && (g in a.genderCounts <==> exists i :: 0 <= i < |rows| && rows[i].gender == Some(g))
      && (g in a.genderCounts ==> a.genderCounts[g] == multiset(Column(LabelBy(rows, GenderOf)))[g])
  {
    var rows := wb.rows;
    var gendered := LabelBy(rows, GenderOf);
    var col := Column(gendered);
    LabelByMembers(rows, GenderOf);
    if g in Elements(col) {
      var j :| 0 <= j < |col| && col[j] == g;
      assert gendered[j] in gendered;
    }
    if exists i :: 0 <= i < |rows| && rows[i].gender == Some(g) {
      var i :| 0 <= i < |rows| && rows[i].gender == Some(g);
      assert rows[i] in rows && GenderOf(rows[i]) == Some(g);
      var x := Labelled(g, rows[i].gender, rows[i].age);
      assert x in gendered;
      var j :| 0 <= j < |gendered| && gendered[j] == x;
      assert col[j] == g;
    }
  }

  /**
   * The gender counts together cover the rows with a gender, which is every row only when
   * no gender is missing; as percentages of the head count they add up to that share of the
   * staff, so to 100 exactly when no gender is missing.
   */
  lemma GenderCountTotals(wb: Workbook, companyName: string)
    ensures var a, rows := AnalyzeStaffData(wb, companyName), wb.rows;
      var gendered := LabelBy(rows, GenderOf);
      && Sum(AsReal(a.genderCounts)) == |gendered| as real
      && (|gendered| == |rows| <==> forall i :: 0 <= i < |rows| ==> rows[i].gender.Some?)
      && (|rows| > 0 ==> Sum(a.genderPct) == Share(|gendered| as real, |rows| as real))
  {
    var rows := wb.rows;
    var col := Column(LabelBy(rows, GenderOf));
    DistributionTotal(col);
    LabelByAll(rows, GenderOf);
    if |rows| > 0 {
      PercentagesTotal(Distribution(col), |rows|);
    }
  }

  /** Every row passes the filter iff the filtered frame is as long as the workbook. */
  lemma {:induction false} LabelByAll<C(!new)>(rows: seq<Record>, f: Record -> Option<C>)
    ensures |LabelBy(rows, f)| == |rows| <==> forall i :: 0 <= i < |rows| ==> f(rows[i]).Some?
  {
    if rows != [] {
      LabelByAll(rows[1..], f);
      assert forall i :: 1 <= i < |rows| ==> rows[i] == rows[1..][i - 1];
    }
  }

  /**
   * The age distribution always lists all six bands, zero-filled; its counts cover the rows
   * whose age falls in a band, and its percentages divide by the whole head count.
   */
  lemma AgeDistribution(wb: Workbook, companyName: string)
    ensures var a, rows := AnalyzeStaffData(wb, companyName), wb.rows;
      var banded := LabelBy(rows, AgeGroupOf);
      && a.ageDistribution.Keys == AgeLabelSet()
      && a.ageDistributionPct.Keys == AgeLabelSet()
      && Sum(AsReal(a.ageDistribution)) == |banded| as real
      && (|rows| > 0 ==> Sum(a.ageDistributionPct) == Share(|banded| as real, |rows| as real))
  {
    var rows := wb.rows;
    var banded := LabelBy(rows, AgeGroupOf);
    var col := Column(banded);
    LabelByMembers(rows, AgeGroupOf);
    forall j | 0 <= j < |col| ensures col[j] in AgeLabelSet() {
      assert banded[j] in banded;
      var r :| r in rows && AgeGroupOf(r) == Some(banded[j].category) && banded[j] == Labelled(banded[j].category, r.gender, r.age);
      AgeGroupOutside(r.age);
    }
    CountsTotal(col, AgeLabelSet());
    if |rows| > 0 {
      PercentagesTotal(CountsIn(col, AgeLabelSet()), |rows|);
    }
  }

  /**
   * A metric's analysis runs on the rows that hold its readings, each labelled by the
   * classifier: its counts add up to that frame's length and its percentages to 100.
   */
  lemma BloodPressureOnFilteredRows(wb: Workbook, companyName: string)
    ensures var a, frame := AnalyzeStaffData(wb, companyName), LabelBy(wb.rows, BpOf);
      && (forall x :: x in frame ==> exists r :: (r in wb.rows && r.systolic.Some? && r.diastolic.Some? &&
            x.category == CategorizeBp(r.systolic.value, r.diastolic.value) && x.gender == r.gender && x.age == r.age))
      && (a.bloodPressure.Some? ==>
            && Sum(AsReal(a.bloodPressure.value.distribution)) == |frame| as real
            && Sum(a.bloodPressure.value.distributionPct) == 100.0)
  {
    var frame := LabelBy(wb.rows, BpOf);
    LabelByMembers(wb.rows, BpOf);
    DistributionAddsUp(frame);
  }

  lemma BloodSugarOnFilteredRows(wb: Workbook, companyName: string)
    ensures var a, frame := AnalyzeStaffData(wb, companyName), LabelBy(wb.rows, GlucoseOf);
      && (forall x :: x in frame ==> exists r :: (r in wb.rows && r.bloodGlucose.Some? &&
            x.category == CategorizeGlucose(r.bloodGlucose.value) && x.gender == r.gender && x.age == r.age))
      && (a.bloodSugar.Some? ==>
            && Sum(AsReal(a.bloodSugar.value.distribution)) == |frame| as real
            && Sum(a.bloodSugar.value.distributionPct) == 100.0)
  {
    var frame := LabelBy(wb.rows, GlucoseOf);
    LabelByMembers(wb.rows, GlucoseOf);
    DistributionAddsUp(frame);
  }

  lemma CholesterolOnFilteredRows(wb: Workbook, companyName: string)
    ensures var a, frame := AnalyzeStaffData(wb, companyName), LabelBy(wb.rows, CholesterolOf);
      && (forall x :: x in frame ==> exists r :: (r in wb.rows && r.cholesterol.Some? &&
            x.category == CategorizeCholesterol(r.cholesterol.value) && x.gender == r.gender && x.age == r.age))
      && (a.cholesterol.Some? ==>
            && Sum(AsReal(a.cholesterol.value.distribution)) == |frame| as real
            && Sum(a.cholesterol.value.distributionPct) == 100.0)
  {
    var frame := LabelBy(wb.rows, CholesterolOf);
    LabelByMembers(wb.rows, CholesterolOf);
    DistributionAddsUp(frame);
  }

  lemma BmiOnFilteredRows(wb: Workbook, companyName: string)
    ensures var a, frame := AnalyzeStaffData(wb, companyName), LabelBy(wb.rows, BmiOf);
      && (forall x :: x in frame ==> exists r :: (r in wb.rows && r.bmi.Some? &&
            x.category == CategorizePopulationBmi(r.bmi.value) && x.gender == r.gender && x.age == r.age))
      && (a.bmi.Some? ==>
            && Sum(AsReal(a.bmi.value.distribution)) == |frame| as real
            && Sum(a.bmi.value.distributionPct) == 100.0)
  {
    var frame := LabelBy(wb.rows, BmiOf);
    LabelByMembers(wb.rows, BmiOf);
    DistributionAddsUp(frame);
  }

  /**
   * Both urine analyses run on the rows holding both cleaned results, with those results as
   * categories; each adds up to that frame's length and to 100 percent.
   */
  lemma UrineOnFilteredRows(wb: Workbook, companyName: string)
    ensures var a := AnalyzeStaffData(wb, companyName);
      var glucose, protein := LabelBy(wb.rows, UrineGlucoseOf), LabelBy(wb.rows, UrineProteinOf);
      && |glucose| == |protein|
      && (forall x :: x in glucose ==> exists r :: (r in wb.rows && HasUrineResults(r) &&
            Some(x.category) == CleanUrine(r.urineGlucose) && x.gender == r.gender && x.age == r.age))
      && (forall x :: x in protein ==> exists r :: (r in wb.rows && HasUrineResults(r) &&
            Some(x.category) == CleanUrine(r.urineProtein) && x.gender == r.gender && x.age == r.age))
      && (a.urine.Some? ==>
            && Sum(AsReal(a.urine.value.glucose.distribution)) == |glucose| as real
            && Sum(a.urine.value.glucose.distributionPct) == 100.0
            && Sum(AsReal(a.urine.value.protein.distribution)) == |protein| as real
            && Sum(a.urine.value.protein.distributionPct) == 100.0)
  {
    var glucose, protein := LabelBy(wb.rows, UrineGlucoseOf), LabelBy(wb.rows, UrineProteinOf);
    UrineFramesAlign(wb.rows);
    LabelByMembers(wb.rows, UrineGlucoseOf);
    LabelByMembers(wb.rows, UrineProteinOf);
    forall x | x in glucose ensures exists r :: (r in wb.rows && HasUrineResults(r) &&
      Some(x.category) == CleanUrine(r.urineGlucose) && x.gender == r.gender && x.age == r.age)
    {
      var r :| r in wb.rows && UrineGlucoseOf(r) == Some(x.category) && x == Labelled(x.category, r.gender, r.age);
      UrineResultsAsCleaned(r);
    }
    forall x | x in protein ensures exists r :: (r in wb.rows && HasUrineResults(r) &&
      Some(x.category) == CleanUrine(r.urineProtein) && x.gender == r.gender && x.age == r.age)
    {
      var r :| r in wb.rows && UrineProteinOf(r) == Some(x.category) && x == Labelled(x.category, r.gender, r.age);
      UrineResultsAsCleaned(r);
    }
    if glucose != [] {
      DistributionAddsUp(glucose);
      DistributionAddsUp(protein);
    }
  }

  lemma UrineFramesAlign(rows: seq<Record>)
    ensures |LabelBy(rows, UrineGlucoseOf)| == |LabelBy(rows, UrineProteinOf)|
    ensures LabelBy(rows, UrineGlucoseOf) != [] <==> LabelBy(rows, UrineProteinOf) != []
  {
    UrineFrameLengths(rows);
  }

  lemma {:induction false} UrineFrameLengths(rows: seq<Record>)
    ensures |LabelBy(rows, UrineGlucoseOf)| == |LabelBy(rows, UrineProteinOf)|
  {
    if rows != [] {
      UrineFrameLengths(rows[1..]);
      UrineResultsAsCleaned(rows[0]);
    }
  }

  /** Every banded row carries one of the six age labels. */
  lemma AgeBandsCovered(rows: seq<Record>)
    ensures Columns(LabelBy(rows, AgeGroupOf)) <= AgeLabelSet()
  {
    var banded := LabelBy(rows, AgeGroupOf);
    LabelByMembers(rows, AgeGroupOf);
    forall c | c in Columns(banded) ensures c in AgeLabelSet() {
      var x :| x in banded && x.gender.Some? && x.category == c;
      var r :| r in rows && AgeGroupOf(r) == Some(x.category) && x == Labelled(x.category, r.gender, r.age);
      AgeGroupOutside(r.age);
    }
  }

  /** Some row of the filtered frame has gender g iff some row f accepts has gender g. */
  lemma LabelByGender<C(!new)>(rows: seq<Record>, f: Record -> Option<C>, g: string)
    ensures (exists x :: x in LabelBy(rows, f) && x.gender == Some(g)) <==>
      (exists r :: r in rows && r.gender == Some(g) && f(r).Some?)
  {
    LabelByMembers(rows, f);
    if exists r :: r in rows && r.gender == Some(g) && f(r).Some? {
      var r :| r in rows && r.gender == Some(g) && f(r).Some?;
      assert Labelled(f(r).value, r.gender, r.age) in LabelBy(rows, f);
    }
  }

  /**
   * The age-by-gender table has a row for every gender that occurs in the workbook, whether
   * or not any of its ages falls in a band, and each row lists all six bands.
   */
  lemma AgeByGenderRows(wb: Workbook, companyName: string, g: string)
    ensures var a := AnalyzeStaffData(wb, companyName);
      && (g in a.ageByGender <==> exists r :: r in wb.rows && r.gender == Some(g))
      && a.ageByGenderPct.Keys == a.ageByGender.Keys
      && (g in a.ageByGender ==> a.ageByGender[g].Keys == AgeLabelSet())
  {
    var gendered := LabelBy(wb.rows, GenderOf);
    assert g in AgeByGender(wb.rows) <==> exists x :: x in gendered && x.gender == Some(g);
    LabelByGender(wb.rows, GenderOf, g);
  }

  /**
   * A gender's row of the age-by-gender table is all zeros exactly when none of that
   * gender's rows has an age in a band.
   */
  lemma BandedGenderRows(rows: seq<Record>, g: string)
    requires g in AgeByGender(rows)
    ensures var banded := LabelBy(rows, AgeGroupOf);
      && (|OfGender(banded, g)| > 0 <==> exists r :: r in rows && r.gender == Some(g) && AgeGroup(r.age).Some?)
      && ((forall l :: l in AgeByGender(rows)[g] ==> AgeByGender(rows)[g][l] == 0) <==> |OfGender(banded, g)| == 0)
  {
    var banded := LabelBy(rows, AgeGroupOf);
    var group := OfGender(banded, g);
    LabelByGender(rows, AgeGroupOf, g);
    if |group| > 0 {
      BandedRowCounted(rows, g, group[0]);
    }
  }

  /** A banded row of gender g makes its band's cell in g's row positive. */
  lemma BandedRowCounted(rows: seq<Record>, g: string, x: Labelled<string>)
    requires g in AgeByGender(rows)
    requires x in OfGender(LabelBy(rows, AgeGroupOf), g)
    ensures x.category in AgeByGender(rows)[g] && AgeByGender(rows)[g][x.category] > 0
  {
    var banded := LabelBy(rows, AgeGroupOf);
    var col := Column(OfGender(banded, g));
    AgeBandsCovered(rows);
    assert x.category in Columns(banded);
    var j :| 0 <= j < |OfGender(banded, g)| && OfGender(banded, g)[j] == x;
    assert col[j] == x.category;
  }

  /**
   * Each row of the age-by-gender table adds up to that gender's banded rows. Its
   * percentages are undefined (NaN) when that number is zero, and otherwise add up to 100.
   */
  lemma AgeByGenderTotals(wb: Workbook, companyName: string, g: string)
    requires g in AnalyzeStaffData(wb, companyName).ageByGender
    ensures var a, banded := AnalyzeStaffData(wb, companyName), LabelBy(wb.rows, AgeGroupOf);
      && g in a.ageByGenderPct
      && Sum(AsReal(a.ageByGender[g])) == |OfGender(banded, g)| as real
      && (a.ageByGenderPct[g].None? <==> |OfGender(banded, g)| == 0)
      && (a.ageByGenderPct[g].Some? ==> Sum(a.ageByGenderPct[g].value) == 100.0)
  {
    AgeRowTotal(wb.rows, g);
    AgeRowPercentages(wb.rows, g);
  }

  lemma AgeRowTotal(rows: seq<Record>, g: string)
    requires g in AgeByGender(rows)
    ensures Sum(AsReal(AgeByGender(rows)[g])) == |OfGender(LabelBy(rows, AgeGroupOf), g)| as real
  {
    var banded := LabelBy(rows, AgeGroupOf);
    AgeBandsCovered(rows);
    GroupCovered(banded, AgeLabelSet(), g);
    CountsTotal(Column(OfGender(banded, g)), AgeLabelSet());
  }

  lemma AgeRowPercentages(rows: seq<Record>, g: string)
    requires g in AgeByGender(rows)
    ensures var n := |OfGender(LabelBy(rows, AgeGroupOf), g)|;
      && (AgeByGenderPct(rows)[g].None? <==> n == 0)
      && (AgeByGenderPct(rows)[g].Some? ==> Sum(AgeByGenderPct(rows)[g].value) == 100.0)
  {
    var n := |OfGender(LabelBy(rows, AgeGroupOf), g)|;
    if n > 0 {
      AgeRowTotal(rows, g);
      PercentagesOfWholeTotal(AgeByGender(rows)[g], n);
    }
  }

  /**
   * The mean age by gender has an entry for each gender that occurs; it is missing (NaN)
   * iff none of that gender's rows has an age, and otherwise lies within their ages.
   */
  lemma AverageAgeByGender(wb: Workbook, companyName: string, g: string, lo: real, hi: real)
    requires forall i :: 0 <= i < |wb.rows| && wb.rows[i].age.Some? ==> lo <= wb.rows[i].age.value <= hi
    ensures var a, rows := AnalyzeStaffData(wb, companyName), wb.rows;
      && (g in a.avgAgeByGender <==> exists i :: 0 <= i < |rows| && rows[i].gender == Some(g))
      && (g in a.avgAgeByGender ==>
            && (a.avgAgeByGender[g].None? <==> forall i :: 0 <= i < |rows| && rows[i].gender == Some(g) ==> rows[i].age.None?)
            && (a.avgAgeByGender[g].Some? ==> lo <= a.avgAgeByGender[g].value <= hi))
  {
    var rows := wb.rows;
    var gendered := LabelBy(rows, GenderOf);
    GenderedAges(rows, lo, hi);
    AnalyzeAverageAge(gendered, g, lo, hi);
    GenderCountEntries(wb, companyName, g);
    GenderedAgesOf(rows, g);
  }

  /** The ages of the gendered frame are ages of the workbook. */
  lemma GenderedAges(rows: seq<Record>, lo: real, hi: real)
    requires forall i :: 0 <= i < |rows| && rows[i].age.Some? ==> lo <= rows[i].age.value <= hi
    ensures forall i :: 0 <= i < |LabelBy(rows, GenderOf)| && LabelBy(rows, GenderOf)[i].age.Some? ==>
      lo <= LabelBy(rows, GenderOf)[i].age.value <= hi
  {
    var gendered := LabelBy(rows, GenderOf);
    LabelByMembers(rows, GenderOf);
    forall i | 0 <= i < |gendered| && gendered[i].age.Some? ensures lo <= gendered[i].age.value <= hi {
      assert gendered[i] in gendered;
      var r :| r in rows && GenderOf(r) == Some(gendered[i].category) && gendered[i] == Labelled(gendered[i].category, r.gender, r.age);
      var k :| 0 <= k < |rows| && rows[k] == r;
    }
  }

  /** Some row of gender g in the gendered frame has an age iff some row of the workbook does. */
  lemma GenderedAgesOf(rows: seq<Record>, g: string)
    ensures var gendered := LabelBy(rows, GenderOf);
      (forall x :: x in gendered && x.category == g ==> x.age.None?) <==>
      (forall i :: 0 <= i < |rows| && rows[i].gender == Some(g) ==> rows[i].age.None?)
  {
    var gendered := LabelBy(rows, GenderOf);
    LabelByMembers(rows, GenderOf);
    if exists i :: 0 <= i < |rows| && rows[i].gender == Some(g) && rows[i].age.Some? {
      var i :| 0 <= i < |rows| && rows[i].gender == Some(g) && rows[i].age.Some?;
      assert rows[i] in rows && GenderOf(rows[i]) == Some(g);
      assert Labelled(g, rows[i].gender, rows[i].age) in gendered;
    }
    if exists x :: x in gendered && x.category == g && x.age.Some? {
      var x :| x in gendered && x.category == g && x.age.Some?;
      var r :| r in rows && GenderOf(r) == Some(x.category) && x == Labelled(x.category, r.gender, r.age);
      var k :| 0 <= k < |rows| && rows[k] == r;
    }
  }
}
