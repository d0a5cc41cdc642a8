/**
 * The decisions the individual PDF report takes from the analysis dictionary, apart from
 * the drawing: the health score and its status, the PSA guard, the overweight "bright
 * side" message, the cross-reference lines of each metric section, which sections and
 * tests appear, and when the chronic-disease programme (CDR) paragraph is added.
 */
module ReportLogic {
  import opened Wrappers
  import opened Text
  import opened Classify
  import opened Tally
  import opened Records
  import opened Individual

  // ---------------------------------------------------------------- the dictionary's items

  /** The six metrics of the report, by the names the conclusion lists them under. */
  datatype Test = BmiTest | BpTest | SugarTest | CholesterolTest | UrineTest | PsaTest {
    function Rank(): nat {
      match this
      case BmiTest => 0
      case BpTest => 1
      case SugarTest => 2
      case CholesterolTest => 3
      case UrineTest => 4
      case PsaTest => 5
    }
    function Name(): string {
      match this
      case BmiTest => "BMI"
      case BpTest => "Blood Pressure"
      case SugarTest => "Blood Sugar"
      case CholesterolTest => "Cholesterol"
      case UrineTest => "Urine Analysis"
      case PsaTest => "PSA"
    }
  }

  /** One (key, entry) pair of the analysis dictionary. */
  datatype Item =
    | BmiItem(bmi: BmiEntry)
    | BpItem(bp: BpEntry)
    | SugarItem(sugar: SugarEntry)
    | CholesterolItem(cholesterol: CholesterolEntry)
    | UrineItem(urine: UrineEntry)
    | PsaItem(psa: PsaEntry)

  /** The item a metric contributes: none when its key is absent. */
  function Part(a: Analysis, t: Test): (s: seq<Item>)
    ensures |s| <= 1
  {
    match t
    case BmiTest => if a.bmi.Some? then [BmiItem(a.bmi.value)] else []
    case BpTest => if a.bloodPressure.Some? then [BpItem(a.bloodPressure.value)] else []
    case SugarTest => if a.bloodSugar.Some? then [SugarItem(a.bloodSugar.value)] else []
    case CholesterolTest => if a.cholesterol.Some? then [CholesterolItem(a.cholesterol.value)] else []
    case UrineTest => if a.urine.Some? then [UrineItem(a.urine.value)] else []
    case PsaTest => if a.psa.Some? then [PsaItem(a.psa.value)] else []
  }

  /** analysis.items(): the present entries in the order analyze_individual_health inserts them. */
  function Items(a: Analysis): (items: seq<Item>)
    ensures |items| <= 6
  {
    Part(a, BmiTest) + Part(a, BpTest) + Part(a, SugarTest) + Part(a, CholesterolTest) + Part(a, UrineTest) + Part(a, PsaTest)
  }

  // ---------------------------------------------------------------- the PSA guard

  /** has_psa_value: the value is not blank text (a reading is never NaN once the entry exists). */
  predicate HasPsaValue(v: Psa) {
    !(v.PsaText? && Trim(v.text) == [])
  }

  /** valid_result: the stripped, upper-cased result is NEGATIVE or POSITIVE. */
  predicate ValidPsaResult(result: string) {
    var r := Upper(Trim(result));
    r == "NEGATIVE" || r == "POSITIVE"
  }

  /** The guard repeated in the score, the PSA section, the test list and the report assembly. */
  predicate PsaShown(p: PsaEntry) {
    HasPsaValue(p.value) && ValidPsaResult(p.result)
  }

  /** Stripping and upper-casing an upper-cased string gives what stripping and upper-casing the original gives. */
  lemma NormalizedUpper(t: string)
    ensures Upper(Trim(Upper(t))) == Upper(Trim(t))
  {
    TrimUpperCommute(t);
    UpperIdempotent(Trim(t));
  }

  /** A reading's result is already stripped and upper-case, and is one of the two valid words. */
  lemma ReadingResultNormal(x: real)
    ensures Upper(Trim(PsaResult(PsaReading(x)))) == PsaResult(PsaReading(x))
    ensures ValidPsaResult(PsaResult(PsaReading(x)))
  {
    if x > 4.0 {
      assert Trim("POSITIVE") == "POSITIVE";
      UpperUnchanged("POSITIVE");
    } else {
      assert Trim("NEGATIVE") == "NEGATIVE";
      UpperUnchanged("NEGATIVE");
    }
  }

  /** Text that reads NEGATIVE or POSITIVE is not blank. */
  lemma ValidResultNotBlank(t: string)
    requires ValidPsaResult(t)
    ensures Trim(t) != []
  {
    assert |Upper(Trim(t))| == |Trim(t)|;
  }

  /**
   * On a profile's PSA entry the guard reduces to: a numeric reading, or text that reads
   * NEGATIVE or POSITIVE once stripped and upper-cased. Whitespace-only text has an entry
   * but never passes.
   */
  lemma PsaGuardOnProfile(v: Psa, age: Option<real>, gender: Option<string>)
    ensures PsaShown(PsaEntry(v, PsaResult(v), age, gender)) <==> v.PsaReading? || ValidPsaResult(v.text)
    ensures v.PsaText? && Trim(v.text) == [] ==> !PsaShown(PsaEntry(v, PsaResult(v), age, gender))
  {
    match v
    case PsaText(t) =>
      TextGuard(t);
    case PsaReading(x) =>
      ReadingResultNormal(x);
  }

  lemma TextGuard(t: string)
    ensures HasPsaValue(PsaText(t)) && ValidPsaResult(Upper(t)) <==> ValidPsaResult(t)
  {
    NormalizedUpper(t);
    if ValidPsaResult(t) {
      ValidResultNotBlank(t);
    }
  }

  /** A shown PSA counts as normal iff the reading is at most 4.0 or the text reads NEGATIVE. */
  lemma PsaNegativeOnProfile(v: Psa)
    ensures Upper(Trim(PsaResult(v))) == "NEGATIVE" <==>
      (v.PsaReading? && v.reading <= 4.0) || (v.PsaText? && Upper(Trim(v.text)) == "NEGATIVE")
  {
    match v
    case PsaText(t) =>
      NormalizedUpper(t);
    case PsaReading(x) =>
      ReadingResultNormal(x);
  }

  // ---------------------------------------------------------------- health score

  /** A number of normal results out of a number of results. */
  datatype Score = Score(normal: nat, total: nat) {
    function Plus(other: Score): Score {
      Score(normal + other.normal, total + other.total)
    }
  }

  /**
   * What one item adds: 1 test for each of the four readings, normal when its category is
   * the normal one; 2 tests for urine, one normal per NEGATIVE result; 1 test for a PSA
   * entry that passes the guard, normal when it reads NEGATIVE.
   */
  function ItemScore(it: Item): (s: Score)
    ensures s.normal <= s.total <= 2
  {
    match it
    case BmiItem(e) => Score(if e.category == IndividualNormal then 1 else 0, 1)
    case BpItem(e) => Score(if e.category == BpNormal then 1 else 0, 1)
    case SugarItem(e) => Score(if e.category == GlucoseNormal then 1 else 0, 1)
    case CholesterolItem(e) => Score(if e.category == CholesterolNormal then 1 else 0, 1)
    case UrineItem(e) =>
      Score((if e.glucose == "NEGATIVE" then 1 else 0) + (if e.protein == "NEGATIVE" then 1 else 0), 2)
    case PsaItem(p) =>
      if PsaShown(p) then Score(if Upper(Trim(p.result)) == "NEGATIVE" then 1 else 0, 1) else Score(0, 0)
  }

  /** Scores added up from the left, as the loop does. */
  function Total(ss: seq<Score>): Score {
    if ss == [] then Score(0, 0)
    else Total(ss[..|ss| - 1]).Plus(ss[|ss| - 1])
  }

  function Scores(items: seq<Item>): (ss: seq<Score>)
    ensures |ss| == |items|
    ensures forall i :: 0 <= i < |items| ==> ss[i] == ItemScore(items[i])
  {
    seq(|items|, i requires 0 <= i < |items| => ItemScore(items[i]))
  }

  /** The score of a sequence of items. */
  function ScoreOf(items: seq<Item>): Score {
    Total(Scores(items))
  }

  /** 'NORMAL' or 'NORMAL WEIGHT', the labels the score treats as normal. */
  predicate NormalLabel(name: string) {
    name == "NORMAL" || name == "NORMAL WEIGHT"
  }

  /** Of the labels of each scale, only its normal category's label is a normal label. */
  lemma BmiNormalLabel(c: IndividualBmi)
    ensures NormalLabel(c.Label()) <==> c == IndividualNormal
  {
  }

  lemma BpNormalLabel(c: BpCategory)
    ensures NormalLabel(c.Label()) <==> c == BpNormal
  {
  }

  lemma GlucoseNormalLabel(c: GlucoseCategory)
    ensures NormalLabel(c.Label()) <==> c == GlucoseNormal
  {
  }

  lemma CholesterolNormalLabel(c: CholesterolCategory)
    ensures NormalLabel(c.Label()) <==> c == CholesterolNormal
  {
  }

  /** The body of the counting loop for one item, testing labels and the PSA guard as the source does. */
  method CountItem(it: Item) returns (normal: nat, total: nat)
    ensures Score(normal, total) == ItemScore(it)
  {
    normal, total := 0, 0;
    match it {
      case BmiItem(e) =>
        BmiNormalLabel(e.category);
        total := 1;
        if NormalLabel(e.category.Label()) {
          normal := 1;
        }
      case BpItem(e) =>
        BpNormalLabel(e.category);
        total := 1;
        if NormalLabel(e.category.Label()) {
          normal := 1;
        }
      case SugarItem(e) =>
        GlucoseNormalLabel(e.category);
        total := 1;
        if NormalLabel(e.category.Label()) {
          normal := 1;
        }
      case CholesterolItem(e) =>
        CholesterolNormalLabel(e.category);
        total := 1;
        if NormalLabel(e.category.Label()) {
          normal := 1;
        }
      case UrineItem(e) =>
        total := 2;
        if e.glucose == "NEGATIVE" {
          normal := normal + 1;
        }
        if e.protein == "NEGATIVE" {
          normal := normal + 1;
        }
      case PsaItem(p) =>
        var shown := PsaGuard(p);
        if shown {
          total := 1;
          if Upper(Trim(p.result)) == "NEGATIVE" {
            normal := 1;
          }
        }
    }
  }

  /** The counting loop of create_health_status_visual over the dictionary's items. */
  method HealthScore(a: Analysis) returns (normalCount: nat, totalTests: nat)
    ensures Score(normalCount, totalTests) == ScoreOf(Items(a))
  {
    var items := Items(a);
    normalCount, totalTests := 0, 0;
    ghost var ss := Scores(items);
    for i := 0 to |items|
      invariant Score(normalCount, totalTests) == Total(ss[..i])
    {
      assert ss[..i + 1][..i] == ss[..i];
      var normal, total := CountItem(items[i]);
      normalCount, totalTests := normalCount + normal, totalTests + total;
    }
    assert ss[..|items|] == ss;
  }

  lemma {:induction false} TotalConcat(x: seq<Score>, y: seq<Score>)
    ensures Total(x + y) == Total(x).Plus(Total(y))
    decreases |y|
  {
    if y == [] {
      assert x + y == x;
    } else {
      var init := y[..|y| - 1];
      assert (x + y)[..|x + y| - 1] == x + init;
      TotalConcat(x, init);
    }
  }

  lemma ScoresConcat(x: seq<Item>, y: seq<Item>)
    ensures Scores(x + y) == Scores(x) + Scores(y)
  {
  }

  lemma ScoreConcat(x: seq<Item>, y: seq<Item>)
    ensures ScoreOf(x + y) == ScoreOf(x).Plus(ScoreOf(y))
  {
    ScoresConcat(x, y);
    TotalConcat(Scores(x), Scores(y));
  }

  lemma {:induction false} TotalBounded(ss: seq<Score>)
    requires forall i :: 0 <= i < |ss| ==> ss[i].normal <= ss[i].total <= 2
    ensures Total(ss).normal <= Total(ss).total <= 2 * |ss|
  {
    if ss != [] {
      TotalBounded(ss[..|ss| - 1]);
    }
  }

  /** The normal count never exceeds the number of tests, and each item adds at most two tests. */
  lemma ScoreBounded(items: seq<Item>)
    ensures ScoreOf(items).normal <= ScoreOf(items).total <= 2 * |items|
  {
    TotalBounded(Scores(items));
  }

  function CountIf(b: bool): nat {
    if b then 1 else 0
  }

  /** The tests counted: one per reading present, two for urine, one for a PSA that passes the guard. */
  function TestCount(a: Analysis): nat {
    CountIf(a.bmi.Some?) + CountIf(a.bloodPressure.Some?) + CountIf(a.bloodSugar.Some?) + CountIf(a.cholesterol.Some?)
    + 2 * CountIf(a.urine.Some?) + CountIf(a.psa.Some? && PsaShown(a.psa.value))
  }

  /** The normal results: each normal category, each NEGATIVE urine result, a NEGATIVE PSA that passes the guard. */
  function NormalCount(a: Analysis): nat {
    CountIf(a.bmi.Some? && a.bmi.value.category == IndividualNormal)
    + CountIf(a.bloodPressure.Some? && a.bloodPressure.value.category == BpNormal)
    + CountIf(a.bloodSugar.Some? && a.bloodSugar.value.category == GlucoseNormal)
    + CountIf(a.cholesterol.Some? && a.cholesterol.value.category == CholesterolNormal)
    + CountIf(a.urine.Some? && a.urine.value.glucose == "NEGATIVE")
    + CountIf(a.urine.Some? && a.urine.value.protein == "NEGATIVE")
    + CountIf(a.psa.Some? && PsaShown(a.psa.value) && Upper(Trim(a.psa.value.result)) == "NEGATIVE")
  }

  /** What one test's entry contributes, written per metric. */
  function TestTally(a: Analysis, t: Test): Score {
    match t
    case BmiTest => Score(CountIf(a.bmi.Some? && a.bmi.value.category == IndividualNormal), CountIf(a.bmi.Some?))
    case BpTest => Score(CountIf(a.bloodPressure.Some? && a.bloodPressure.value.category == BpNormal), CountIf(a.bloodPressure.Some?))
    case SugarTest => Score(CountIf(a.bloodSugar.Some? && a.bloodSugar.value.category == GlucoseNormal), CountIf(a.bloodSugar.Some?))
    case CholesterolTest =>
      Score(CountIf(a.cholesterol.Some? && a.cholesterol.value.category == CholesterolNormal), CountIf(a.cholesterol.Some?))
    case UrineTest =>
      Score(CountIf(a.urine.Some? && a.urine.value.glucose == "NEGATIVE") + CountIf(a.urine.Some? && a.urine.value.protein == "NEGATIVE"),
            2 * CountIf(a.urine.Some?))
    case PsaTest =>
      Score(CountIf(a.psa.Some? && PsaShown(a.psa.value) && Upper(Trim(a.psa.value.result)) == "NEGATIVE"),
            CountIf(a.psa.Some? && PsaShown(a.psa.value)))
  }

  lemma TotalSingle(x: Score)
    ensures Total([x]) == x
  {
    assert [x][..0] == [];
  }

  /** A single item scores its own score. */
  lemma ScoreOfSingle(it: Item)
    ensures ScoreOf([it]) == ItemScore(it)
  {
    assert Scores([it]) == [ItemScore(it)];
    TotalSingle(ItemScore(it));
  }

  /** The score of one test's part of the items is that test's tally. */
  lemma ScoreOfPart(a: Analysis, t: Test)
    ensures ScoreOf(Part(a, t)) == TestTally(a, t)
  {
    var part := Part(a, t);
    if t == PsaTest {
      PsaPartTally(a);
    } else {
      PartTally(a, t);
    }
    if part != [] {
      ScoreOfSingle(part[0]);
      assert part == [part[0]];
    }
  }

  /** A metric's tally is nothing when its key is absent, and its item's score otherwise. */
  lemma PartTally(a: Analysis, t: Test)
    requires t != PsaTest
    ensures Part(a, t) == [] ==> TestTally(a, t) == Score(0, 0)
    ensures Part(a, t) != [] ==> TestTally(a, t) == ItemScore(Part(a, t)[0])
  {
    match t
    case BmiTest =>
    case BpTest =>
    case SugarTest =>
    case CholesterolTest =>
    case UrineTest =>
  }

  /** The PSA tally is nothing when the key is absent or the guard fails, and the result's score otherwise. */
  lemma PsaPartTally(a: Analysis)
    ensures Part(a, PsaTest) == [] ==> TestTally(a, PsaTest) == Score(0, 0)
    ensures Part(a, PsaTest) != [] ==> TestTally(a, PsaTest) == ItemScore(Part(a, PsaTest)[0])
  {
    if a.psa.Some? {
      assert Part(a, PsaTest) == [PsaItem(a.psa.value)];
    }
  }

  /** The score of the items is the sum of the six parts' scores, in order. */
  lemma ScoreOfItems(a: Analysis)
    ensures ScoreOf(Items(a)) == ScoreOf(Part(a, BmiTest)).Plus(ScoreOf(Part(a, BpTest))).Plus(ScoreOf(Part(a, SugarTest)))
      .Plus(ScoreOf(Part(a, CholesterolTest))).Plus(ScoreOf(Part(a, UrineTest))).Plus(ScoreOf(Part(a, PsaTest)))
  {
    var b, p, s, c, u, q := Part(a, BmiTest), Part(a, BpTest), Part(a, SugarTest), Part(a, CholesterolTest), Part(a, UrineTest), Part(a, PsaTest);
    ScoreConcat(b, p);
    ScoreConcat(b + p, s);
    ScoreConcat(b + p + s, c);
    ScoreConcat(b + p + s + c, u);
    ScoreConcat(b + p + s + c + u, q);
  }

  /** The loop's score is the per-metric count. */
  lemma ScoreClosedForm(a: Analysis)
    ensures ScoreOf(Items(a)) == Score(NormalCount(a), TestCount(a))
  {
    ScoreOfItems(a);
    ScoreOfPart(a, BmiTest);
    ScoreOfPart(a, BpTest);
    ScoreOfPart(a, SugarTest);
    ScoreOfPart(a, CholesterolTest);
    ScoreOfPart(a, UrineTest);
    ScoreOfPart(a, PsaTest);
    TalliesAddUp(a);
  }

  lemma TalliesAddUp(a: Analysis)
    ensures TestTally(a, BmiTest).Plus(TestTally(a, BpTest)).Plus(TestTally(a, SugarTest)).Plus(TestTally(a, CholesterolTest))
      .Plus(TestTally(a, UrineTest)).Plus(TestTally(a, PsaTest)) == Score(NormalCount(a), TestCount(a))
  {
    TalliesNormal(a);
    TalliesTotal(a);
  }

  lemma TalliesNormal(a: Analysis)
    ensures TestTally(a, BmiTest).normal + TestTally(a, BpTest).normal + TestTally(a, SugarTest).normal
      + TestTally(a, CholesterolTest).normal + TestTally(a, UrineTest).normal + TestTally(a, PsaTest).normal == NormalCount(a)
  {
  }

  lemma TalliesTotal(a: Analysis)
    ensures TestTally(a, BmiTest).total + TestTally(a, BpTest).total + TestTally(a, SugarTest).total
      + TestTally(a, CholesterolTest).total + TestTally(a, UrineTest).total + TestTally(a, PsaTest).total == TestCount(a)
  {
  }

  // ---------------------------------------------------------------- status

  /** normal / total * 100, and 0 when there are no tests. */
  function HealthPercentage(s: Score): real {
    Percent(s.normal, s.total)
  }

  datatype Status = Excellent | Good | NeedsAttention

  function StatusOf(percentage: real): Status {
    if percentage >= 80.0 then Excellent
    else if percentage >= 60.0 then Good
    else NeedsAttention
  }

  lemma ScaleCompare(p: real, n: real, k: real)
    requires n > 0.0
    ensures p >= k <==> p * n >= k * n
  {
    if p >= k {
      assert p * n - k * n == (p - k) * n;
    } else {
      assert k * n - p * n == (k - p) * n;
    }
  }

  /** A percentage p of count out of n, compared with 80 and 60 without dividing. */
  lemma RatioThresholds(p: real, count: real, n: real)
    requires n > 0.0 && p * n == count * 100.0
    ensures p >= 80.0 <==> 5.0 * count >= 4.0 * n
    ensures p >= 60.0 <==> 5.0 * count >= 3.0 * n
  {
    ScaleCompare(p, n, 80.0);
    ScaleCompare(p, n, 60.0);
  }

  /**
   * The status thresholds, without division: Excellent iff at least four results in five
   * are normal, Good iff at least three in five but fewer than four, and Needs Attention
   * otherwise, including when there is no test at all.
   */
  lemma StatusThresholds(s: Score)
    ensures s.total == 0 ==> HealthPercentage(s) == 0.0 && StatusOf(HealthPercentage(s)) == NeedsAttention
    ensures s.total > 0 ==> (StatusOf(HealthPercentage(s)) == Excellent <==> 5 * s.normal >= 4 * s.total)
    ensures s.total > 0 ==> (StatusOf(HealthPercentage(s)) == Good <==> 3 * s.total <= 5 * s.normal < 4 * s.total)
    ensures s.total > 0 ==> (StatusOf(HealthPercentage(s)) == NeedsAttention <==> 5 * s.normal < 3 * s.total)
  {
    if s.total > 0 {
      PercentMeaning(s.normal, s.total);
      RatioThresholds(HealthPercentage(s), s.normal as real, s.total as real);
    }
  }

  /** Every test normal (and at least one test) is Excellent. */
  lemma AllNormalIsExcellent(a: Analysis)
    requires TestCount(a) > 0 && NormalCount(a) == TestCount(a)
    ensures StatusOf(HealthPercentage(ScoreOf(Items(a)))) == Excellent
  {
    ScoreClosedForm(a);
    StatusThresholds(ScoreOf(Items(a)));
  }

  /**
   * The profile's urine results are upper-cased but not stripped, so a padded " negative"
   * is not counted as normal.
   */
  lemma PaddedUrineNotNormal(d: Record)
    requires d.urineGlucose == Text(" negative") && d.urineProtein.Text?
    ensures Profile(d).urine.Some? && Profile(d).urine.value.glucose != "NEGATIVE"
  {
    assert Profile(d).urine.value.glucose[0] == ' ';
  }

  // ---------------------------------------------------------------- overweight bright side

  datatype Level = LevelNormal | Elevated | LevelHigh

  /** BP level of the bright-side check: high above 140/90, elevated above 120/80; missing counts as normal. */
  function BpLevel(systolic: Option<real>, diastolic: Option<real>): (l: Level)
    ensures l == LevelNormal <==> systolic.None? || diastolic.None? || (systolic.value <= 120.0 && diastolic.value <= 80.0)
    ensures l == LevelHigh <==> systolic.Some? && diastolic.Some? && (systolic.value > 140.0 || diastolic.value > 90.0)
  {
    if systolic.Some? && diastolic.Some? then
      if systolic.value > 140.0 || diastolic.value > 90.0 then LevelHigh
      else if systolic.value > 120.0 || diastolic.value > 80.0 then Elevated
      else LevelNormal
    else LevelNormal
  }

  /** Glucose level: high above 125, elevated above 100; missing counts as normal. */
  function GlucoseLevel(glucose: Option<real>): (l: Level)
    ensures l == LevelNormal <==> glucose.None? || glucose.value <= 100.0
    ensures l == LevelHigh <==> glucose.Some? && glucose.value > 125.0
  {
    if glucose.Some? then
      if glucose.value > 125.0 then LevelHigh else if glucose.value > 100.0 then Elevated else LevelNormal
    else LevelNormal
  }

  /** Cholesterol level: high above 240, elevated above 200; missing counts as normal. */
  function CholesterolLevel(cholesterol: Option<real>): (l: Level)
    ensures l == LevelNormal <==> cholesterol.None? || cholesterol.value <= 200.0
    ensures l == LevelHigh <==> cholesterol.Some? && cholesterol.value > 240.0
  {
    if cholesterol.Some? then
      if cholesterol.value > 240.0 then LevelHigh else if cholesterol.value > 200.0 then Elevated else LevelNormal
    else LevelNormal
  }

  /** The parameters the bright-side message calls normal, in the order blood pressure, blood sugar, cholesterol. */
  function NormalParameters(e: BmiEntry): (params: seq<string>)
    ensures |params| <= 3
    ensures "blood pressure" in params <==> BpLevel(e.systolic, e.diastolic) == LevelNormal
    ensures "blood sugar" in params <==> GlucoseLevel(e.bloodGlucose) == LevelNormal
    ensures "cholesterol" in params <==> CholesterolLevel(e.cholesterol) == LevelNormal
    ensures |params| == CountIf(BpLevel(e.systolic, e.diastolic) == LevelNormal)
      + CountIf(GlucoseLevel(e.bloodGlucose) == LevelNormal) + CountIf(CholesterolLevel(e.cholesterol) == LevelNormal)
  {
    (if BpLevel(e.systolic, e.diastolic) == LevelNormal then ["blood pressure"] else [])
    + (if GlucoseLevel(e.bloodGlucose) == LevelNormal then ["blood sugar"] else [])
    + (if CholesterolLevel(e.cholesterol) == LevelNormal then ["cholesterol"] else [])
  }

  /** normal_params, built by append from the three levels. */
  method NormalParams(e: BmiEntry) returns (params: seq<string>)
    ensures params == NormalParameters(e)
  {
    var bpStatus := BpLevel(e.systolic, e.diastolic);
    var glucoseStatus := GlucoseLevel(e.bloodGlucose);
    var cholStatus := CholesterolLevel(e.cholesterol);
    params := [];
    if bpStatus == LevelNormal {
      params := params + ["blood pressure"];
    }
    if glucoseStatus == LevelNormal {
      params := params + ["blood sugar"];
    }
    if cholStatus == LevelNormal {
      params := params + ["cholesterol"];
    }
  }

  /**
   * The four bright-side messages; two of them name the normal parameters. The report
   * writes one only in the OVERWEIGHT branch of the BMI section (individual_report_generator.py:706).
   */
  datatype BrightSide = AllThreeNormal | TwoNormal(first: string, second: string) | OneNormal(name: string) | NoneNormal

  function BrightSideOf(params: seq<string>): BrightSide {
    if |params| == 0 then NoneNormal
    else if |params| == 3 then AllThreeNormal
    else if |params| == 2 then TwoNormal(params[0], params[1])
    else OneNormal(params[0])
  }

  /** The message depends only on how many of the three readings are normal, and names those. */
  lemma BrightSideByCount(e: BmiEntry)
    ensures var params, m := NormalParameters(e), BrightSideOf(NormalParameters(e));
      && (m == AllThreeNormal <==> (BpLevel(e.systolic, e.diastolic) == LevelNormal &&
            GlucoseLevel(e.bloodGlucose) == LevelNormal && CholesterolLevel(e.cholesterol) == LevelNormal))
      && (m == NoneNormal <==> (BpLevel(e.systolic, e.diastolic) != LevelNormal &&
            GlucoseLevel(e.bloodGlucose) != LevelNormal && CholesterolLevel(e.cholesterol) != LevelNormal))
      && (m.TwoNormal? ==> m.first in params && m.second in params && m.first != m.second)
      && (m.OneNormal? ==> params == [m.name])
  {
  }

  /** A missing reading counts as normal: with no readings at all the message says all three are normal. */
  lemma BrightSideWithoutReadings(e: BmiEntry)
    requires e.systolic.None? && e.bloodGlucose.None? && e.cholesterol.None?
    ensures BrightSideOf(NormalParameters(e)) == AllThreeNormal
  {
  }

  // ---------------------------------------------------------------- cross references

  datatype Metric = BmiMetric | BpMetric | GlucoseMetric | CholesterolMetric

  /** The raw readings an entry carries. */
  datatype Readings = Readings(
    bmi: Option<real>, systolic: Option<real>, diastolic: Option<real>, bloodGlucose: Option<real>, cholesterol: Option<real>)

  predicate Present(m: Metric, r: Readings) {
    match m
    case BmiMetric => r.bmi.Some?
    case BpMetric => r.systolic.Some? && r.diastolic.Some?
    case GlucoseMetric => r.bloodGlucose.Some?
    case CholesterolMetric => r.cholesterol.Some?
  }

  /** "high" or "elevated" rather than "normal": BMI above 25, BP above 140/90, glucose above 100, cholesterol above 200. */
  predicate Flagged(m: Metric, r: Readings)
    requires Present(m, r)
  {
    match m
    case BmiMetric => r.bmi.value > 25.0
    case BpMetric => r.systolic.value > 140.0 || r.diastolic.value > 90.0
    case GlucoseMetric => r.bloodGlucose.value > 100.0
    case CholesterolMetric => r.cholesterol.value > 200.0
  }

  /** One "Your ... is high/normal" line. */
  datatype CrossRef = CrossRef(metric: Metric, flagged: bool)

  /** The lines a section writes: one per metric of its order whose reading is present. */
  function Line(m: Metric, r: Readings): seq<CrossRef> {
    if Present(m, r) then [CrossRef(m, Flagged(m, r))] else []
  }

  function CrossRefs(order: seq<Metric>, r: Readings): (lines: seq<CrossRef>)
    ensures |lines| <= |order|
    ensures forall i :: 0 <= i < |lines| ==> lines[i].metric in order && Present(lines[i].metric, r)
    ensures forall i :: 0 <= i < |lines| ==> lines[i].flagged == Flagged(lines[i].metric, r)
  {
    if order == [] then []
    else
      Line(order[0], r) + CrossRefs(order[1..], r)
  }


  /** A three-metric order writes the three possible lines in that order. */
  lemma CrossRefsOfThree(m1: Metric, m2: Metric, m3: Metric, r: Readings)
    ensures CrossRefs([m1, m2, m3], r) == Line(m1, r) + Line(m2, r) + Line(m3, r)
  {
    assert [m1, m2, m3][1..] == [m2, m3];
    CrossRefsOfTwo(m2, m3, r);
    var l1, l2, l3 := Line(m1, r), Line(m2, r), Line(m3, r);
    assert l1 + (l2 + l3) == l1 + l2 + l3;
  }

  lemma CrossRefsOfTwo(m2: Metric, m3: Metric, r: Readings)
    ensures CrossRefs([m2, m3], r) == Line(m2, r) + Line(m3, r)
  {
    assert [m2, m3][1..] == [m3];
    assert [m3][1..] == [];
  }

  /** Every metric of the order whose reading is present gets a line, in the order's sequence. */
  lemma {:induction false} CrossRefsComplete(order: seq<Metric>, r: Readings, m: Metric)
    requires m in order && Present(m, r)
    ensures exists i :: 0 <= i < |CrossRefs(order, r)| && CrossRefs(order, r)[i].metric == m
  {
    if order[0] != m {
      assert m in order[1..];
      CrossRefsComplete(order[1..], r, m);
      var i :| 0 <= i < |CrossRefs(order[1..], r)| && CrossRefs(order[1..], r)[i].metric == m;
      if Present(order[0], r) {
        assert CrossRefs(order, r)[i + 1] == CrossRefs(order[1..], r)[i];
      } else {
        assert CrossRefs(order, r) == CrossRefs(order[1..], r);
      }
    } else {
      assert CrossRefs(order, r)[0].metric == m;
    }
  }

  /** The BMI section's cross references, built by +=: blood pressure, blood sugar, cholesterol. */
  method BmiSectionCrossRefs(e: BmiEntry) returns (lines: seq<CrossRef>)
    ensures lines == CrossRefs([BpMetric, GlucoseMetric, CholesterolMetric], Readings(Some(e.value), e.systolic, e.diastolic, e.bloodGlucose, e.cholesterol))
  {
    CrossRefsOfThree(BpMetric, GlucoseMetric, CholesterolMetric, Readings(Some(e.value), e.systolic, e.diastolic, e.bloodGlucose, e.cholesterol));
    lines := [];
    if e.systolic.Some? && e.diastolic.Some? {
      lines := lines + [CrossRef(BpMetric, e.systolic.value > 140.0 || e.diastolic.value > 90.0)];
    }
    if e.bloodGlucose.Some? {
      lines := lines + [CrossRef(GlucoseMetric, e.bloodGlucose.value > 100.0)];
    }
    if e.cholesterol.Some? {
      lines := lines + [CrossRef(CholesterolMetric, e.cholesterol.value > 200.0)];
    }
  }

  /** The blood pressure section's cross references: BMI, blood sugar, cholesterol. */
  method BpSectionCrossRefs(e: BpEntry) returns (lines: seq<CrossRef>)
    ensures lines == CrossRefs([BmiMetric, GlucoseMetric, CholesterolMetric], Readings(e.bmi, Some(e.systolic), Some(e.diastolic), e.bloodGlucose, e.cholesterol))
  {
    CrossRefsOfThree(BmiMetric, GlucoseMetric, CholesterolMetric, Readings(e.bmi, Some(e.systolic), Some(e.diastolic), e.bloodGlucose, e.cholesterol));
    lines := [];
    if e.bmi.Some? {
      lines := lines + [CrossRef(BmiMetric, e.bmi.value > 25.0)];
    }
    if e.bloodGlucose.Some? {
      lines := lines + [CrossRef(GlucoseMetric, e.bloodGlucose.value > 100.0)];
    }
    if e.cholesterol.Some? {
      lines := lines + [CrossRef(CholesterolMetric, e.cholesterol.value > 200.0)];
    }
  }

  /** The blood sugar section's cross references: BMI, blood pressure, cholesterol. */
  method SugarSectionCrossRefs(e: SugarEntry) returns (lines: seq<CrossRef>)
    ensures lines == CrossRefs([BmiMetric, BpMetric, CholesterolMetric], Readings(e.bmi, e.systolic, e.diastolic, Some(e.value), e.cholesterol))
  {
    CrossRefsOfThree(BmiMetric, BpMetric, CholesterolMetric, Readings(e.bmi, e.systolic, e.diastolic, Some(e.value), e.cholesterol));
    lines := [];
    if e.bmi.Some? {
      lines := lines + [CrossRef(BmiMetric, e.bmi.value > 25.0)];
    }
    if e.systolic.Some? && e.diastolic.Some? {
      lines := lines + [CrossRef(BpMetric, e.systolic.value > 140.0 || e.diastolic.value > 90.0)];
    }
    if e.cholesterol.Some? {
      lines := lines + [CrossRef(CholesterolMetric, e.cholesterol.value > 200.0)];
    }
  }

  /** The cholesterol section's cross references: BMI, blood pressure, blood sugar. */
  method CholesterolSectionCrossRefs(e: CholesterolEntry) returns (lines: seq<CrossRef>)
    ensures lines == CrossRefs([BmiMetric, BpMetric, GlucoseMetric], Readings(e.bmi, e.systolic, e.diastolic, e.bloodGlucose, Some(e.value)))
  {
    CrossRefsOfThree(BmiMetric, BpMetric, GlucoseMetric, Readings(e.bmi, e.systolic, e.diastolic, e.bloodGlucose, Some(e.value)));
    lines := [];
    if e.bmi.Some? {
      lines := lines + [CrossRef(BmiMetric, e.bmi.value > 25.0)];
    }
    if e.systolic.Some? && e.diastolic.Some? {
      lines := lines + [CrossRef(BpMetric, e.systolic.value > 140.0 || e.diastolic.value > 90.0)];
    }
    if e.bloodGlucose.Some? {
      lines := lines + [CrossRef(GlucoseMetric, e.bloodGlucose.value > 100.0)];
    }
  }

  /**
   * The BMI section judges blood pressure twice with different cut-offs: a reading the
   * bright side calls normal is never flagged by the cross reference, but 130/85 is
   * "normal" in the cross reference and not normal for the bright side.
   */
  lemma BpJudgedTwice(e: BmiEntry)
    ensures var r := Readings(Some(e.value), e.systolic, e.diastolic, e.bloodGlucose, e.cholesterol);
      Present(BpMetric, r) && BpLevel(e.systolic, e.diastolic) == LevelNormal ==> !Flagged(BpMetric, r)
    ensures var r := Readings(Some(e.value), Some(130.0), Some(85.0), e.bloodGlucose, e.cholesterol);
      !Flagged(BpMetric, r) && BpLevel(r.systolic, r.diastolic) != LevelNormal
  {
  }

  // ---------------------------------------------------------------- sections, tests and the CDR paragraph

  /** A section produces elements iff its key is in the dictionary; the PSA section also needs the guard. */
  predicate SectionShown(a: Analysis, t: Test) {
    match t
    case BmiTest => a.bmi.Some?
    case BpTest => a.bloodPressure.Some?
    case SugarTest => a.bloodSugar.Some?
    case CholesterolTest => a.cholesterol.Some?
    case UrineTest => a.urine.Some?
    case PsaTest => a.psa.Some? && PsaShown(a.psa.value)
  }

  function Shown(a: Analysis, t: Test): seq<Test> {
    if SectionShown(a, t) then [t] else []
  }

  /** The metric sections of the report, in the order generate_individual_report adds them. */
  function ReportSections(a: Analysis): (sections: seq<Test>)
    ensures forall t :: t in sections <==> SectionShown(a, t)
  {
    Shown(a, BmiTest) + Shown(a, BpTest) + Shown(a, SugarTest) + Shown(a, CholesterolTest) + Shown(a, UrineTest) + Shown(a, PsaTest)
  }

  predicate Increasing(sections: seq<Test>) {
    forall i, j :: 0 <= i < j < |sections| ==> sections[i].Rank() < sections[j].Rank()
  }

  /** Appending a section of a higher rank than every section so far keeps the ranks increasing. */
  lemma ShownExtends(sections: seq<Test>, a: Analysis, t: Test)
    requires Increasing(sections)
    requires forall i :: 0 <= i < |sections| ==> sections[i].Rank() < t.Rank()
    ensures Increasing(sections + Shown(a, t))
    ensures forall i :: 0 <= i < |sections + Shown(a, t)| ==> (sections + Shown(a, t))[i].Rank() <= t.Rank()
  {
  }

  /** The sections appear in the fixed order BMI, Blood Pressure, Blood Sugar, Cholesterol, Urine Analysis, PSA. */
  lemma SectionsOrdered(a: Analysis)
    ensures Increasing(ReportSections(a))
  {
    var s0 := Shown(a, BmiTest);
    ShownExtends(s0, a, BpTest);
    var s1 := s0 + Shown(a, BpTest);
    ShownExtends(s1, a, SugarTest);
    var s2 := s1 + Shown(a, SugarTest);
    ShownExtends(s2, a, CholesterolTest);
    var s3 := s2 + Shown(a, CholesterolTest);
    ShownExtends(s3, a, UrineTest);
    var s4 := s3 + Shown(a, UrineTest);
    ShownExtends(s4, a, PsaTest);
  }

  /** The display names of the sections, in order. */
  function Names(sections: seq<Test>): (names: seq<string>)
    ensures |names| == |sections|
    ensures forall i :: 0 <= i < |sections| ==> names[i] == sections[i].Name()
  {
    seq(|sections|, i requires 0 <= i < |sections| => sections[i].Name())
  }

  lemma NamesAppend(sections: seq<Test>, a: Analysis, t: Test)
    ensures Names(sections + Shown(a, t)) == Names(sections) + if SectionShown(a, t) then [t.Name()] else []
  {
  }

  /** The has_psa_value and valid_result tests, evaluated as the report code writes them. */
  method PsaGuard(p: PsaEntry) returns (shown: bool)
    ensures shown == PsaShown(p)
  {
    var hasPsaValue := !(p.value.PsaText? && Trim(p.value.text) == []);
    var result := Upper(Trim(p.result));
    var validResult := result == "NEGATIVE" || result == "POSITIVE";
    shown := hasPsaValue && validResult;
  }

  /** available_tests of the conclusion, built by append in the fixed order: the names of the report's sections. */
  method AvailableTests(a: Analysis) returns (tests: seq<string>)
    ensures tests == Names(ReportSections(a))
  {
    tests := [];
    tests := tests + if a.bmi.Some? then ["BMI"] else [];
    ghost var sections := Shown(a, BmiTest);
    assert tests == Names(sections);
    NamesAppend(sections, a, BpTest);
    tests := tests + if a.bloodPressure.Some? then ["Blood Pressure"] else [];
    sections := sections + Shown(a, BpTest);
    assert tests == Names(sections);
    NamesAppend(sections, a, SugarTest);
    tests := tests + if a.bloodSugar.Some? then ["Blood Sugar"] else [];
    sections := sections + Shown(a, SugarTest);
    assert tests == Names(sections);
    NamesAppend(sections, a, CholesterolTest);
    tests := tests + if a.cholesterol.Some? then ["Cholesterol"] else [];
    sections := sections + Shown(a, CholesterolTest);
    assert tests == Names(sections);
    NamesAppend(sections, a, UrineTest);
    tests := tests + if a.urine.Some? then ["Urine Analysis"] else [];
    sections := sections + Shown(a, UrineTest);
    assert tests == Names(sections);
    NamesAppend(sections, a, PsaTest);
    var psaShown := false;
    if a.psa.Some? {
      psaShown := PsaGuard(a.psa.value);
    }
    tests := tests + if psaShown then ["PSA"] else [];
    sections := sections + Shown(a, PsaTest);
    assert tests == Names(sections);
  }

  /** The health score counts exactly the tests of the shown sections, urine twice. */
  lemma ScoreCountsShownSections(a: Analysis)
    ensures ScoreOf(Items(a)).total == |ReportSections(a)| + CountIf(SectionShown(a, UrineTest))
  {
    ScoreClosedForm(a);
    SectionCount(a);
  }

  /** The report has one section per metric present, PSA only when its guard passes. */
  lemma SectionCount(a: Analysis)
    ensures |ReportSections(a)| == CountIf(a.bmi.Some?) + CountIf(a.bloodPressure.Some?) + CountIf(a.bloodSugar.Some?)
      + CountIf(a.cholesterol.Some?) + CountIf(a.urine.Some?) + CountIf(a.psa.Some? && PsaShown(a.psa.value))
  {
    var b, p, s, c, u, q := Shown(a, BmiTest), Shown(a, BpTest), Shown(a, SugarTest), Shown(a, CholesterolTest), Shown(a, UrineTest), Shown(a, PsaTest);
    assert |ReportSections(a)| == |b| + |p| + |s| + |c| + |u| + |q|;
    ShownLength(a, BmiTest);
    ShownLength(a, BpTest);
    ShownLength(a, SugarTest);
    ShownLength(a, CholesterolTest);
    ShownLength(a, UrineTest);
    ShownLength(a, PsaTest);
  }

  lemma ShownLength(a: Analysis, t: Test)
    ensures |Shown(a, t)| == CountIf(SectionShown(a, t))
  {
  }

  /** has_high_bp or has_high_glucose: the CDR paragraph is added. */
  predicate NeedsCdr(a: Analysis) {
    (a.bloodPressure.Some? && a.bloodPressure.value.category.Label() in ["HIGH", "MODERATE HIGH"])
    || (a.bloodSugar.Some? && a.bloodSugar.value.category.Label() in ["DIABETIC", "PRE_DIABETIC"])
  }

  /**
   * On a profile, the CDR paragraph appears iff systolic/diastolic are at least 100/60 with
   * systolic at least 141 or diastolic at least 91, or blood glucose is at least 100.
   */
  lemma CdrOnProfile(d: Record)
    ensures NeedsCdr(Profile(d)) <==>
      (d.systolic.Some? && d.diastolic.Some? && d.systolic.value >= 100.0 && d.diastolic.value >= 60.0 &&
        (d.systolic.value >= 141.0 || d.diastolic.value >= 91.0))
      || (d.bloodGlucose.Some? && d.bloodGlucose.value >= 100.0)
  {
  }
}
