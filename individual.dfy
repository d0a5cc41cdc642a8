/**
 * One enrollee's profile: finding their row by ENROLLEE ID (get_individual_data) and the
 * per-metric dictionary analyze_individual_health builds from it. Each metric gets an entry
 * only when its readings are present, and each entry carries the other metrics' raw
 * readings for cross-reference.
 */
module Individual {
  import opened Wrappers
  import opened Text
  import opened Classify
  import opened Records

  // ---------------------------------------------------------------- lookup

  /** The first row whose ENROLLEE ID equals id; a ValueError when there is none. */
  function GetIndividualData(rows: seq<Record>, id: string): (r: Result<Record, string>)
    ensures r.Failure? <==> forall i :: 0 <= i < |rows| ==> rows[i].enrolleeId != Some(id)
    ensures r.Failure? ==> r.error == "No individual found with Enrollee ID: " + id
    ensures r.Success? ==> exists i :: (0 <= i < |rows| && rows[i] == r.value && rows[i].enrolleeId == Some(id) &&
      forall j :: 0 <= j < i ==> rows[j].enrolleeId != Some(id))
  {
    if rows == [] then Failure("No individual found with Enrollee ID: " + id)
    else if rows[0].enrolleeId == Some(id) then Success(rows[0])
    else
      var r := GetIndividualData(rows[1..], id);
      assert forall i :: 1 <= i < |rows| ==> rows[i] == rows[1..][i - 1];
      if r.Success? then
        var i :| 0 <= i < |rows[1..]| && rows[1..][i] == r.value && rows[1..][i].enrolleeId == Some(id) &&
          forall j :: 0 <= j < i ==> rows[1..][j].enrolleeId != Some(id);
        assert rows[i + 1] == r.value;
        r
      else r
  }

  // ---------------------------------------------------------------- the analysis dictionary

  datatype BmiEntry = BmiEntry(
    value: real, category: IndividualBmi,
    systolic: Option<real>, diastolic: Option<real>, bloodGlucose: Option<real>, cholesterol: Option<real>)

  datatype BpEntry = BpEntry(
    systolic: real, diastolic: real, category: BpCategory,
    bmi: Option<real>, bloodGlucose: Option<real>, cholesterol: Option<real>)

  datatype SugarEntry = SugarEntry(
    value: real, category: GlucoseCategory,
    bmi: Option<real>, systolic: Option<real>, diastolic: Option<real>, cholesterol: Option<real>)

  datatype CholesterolEntry = CholesterolEntry(
    value: real, category: CholesterolCategory,
    bmi: Option<real>, systolic: Option<real>, diastolic: Option<real>, bloodGlucose: Option<real>)

  datatype UrineEntry = UrineEntry(glucose: string, protein: string)

  datatype PsaEntry = PsaEntry(value: Psa, result: string, age: Option<real>, gender: Option<string>)

  /**
   * The analysis dictionary: a field holds Some(entry) exactly when the dictionary has the
   * key 'bmi', 'blood_pressure', 'blood_sugar', 'cholesterol', 'urine' or 'psa'.
   */
  datatype Analysis = Analysis(
    bmi: Option<BmiEntry>,
    bloodPressure: Option<BpEntry>,
    bloodSugar: Option<SugarEntry>,
    cholesterol: Option<CholesterolEntry>,
    urine: Option<UrineEntry>,
    psa: Option<PsaEntry>)

  /**
   * What analyze_individual_health returns for a row: an entry per metric whose readings are
   * all present, classified by the thresholds of the individual report.
   */
  function Profile(d: Record): (a: Analysis)
    ensures a.bmi.Some? <==> d.bmi.Some?
    ensures a.bloodPressure.Some? <==> d.systolic.Some? && d.diastolic.Some?
    ensures a.bloodSugar.Some? <==> d.bloodGlucose.Some?
    ensures a.cholesterol.Some? <==> d.cholesterol.Some?
    ensures a.urine.Some? <==> d.urineGlucose.Text? && d.urineProtein.Text?
    ensures a.psa.Some? <==> d.psa.Some?
  {
    Analysis(
      if d.bmi.Some? then
        var v := d.bmi.value;
        Some(BmiEntry(v, CategorizeIndividualBmi(v), d.systolic, d.diastolic, d.bloodGlucose, d.cholesterol))
      else None,
      if d.systolic.Some? && d.diastolic.Some? then
        var s, t := d.systolic.value, d.diastolic.value;
        Some(BpEntry(s, t, CategorizeBp(s, t), d.bmi, d.bloodGlucose, d.cholesterol))
      else None,
      if d.bloodGlucose.Some? then
        var v := d.bloodGlucose.value;
        Some(SugarEntry(v, CategorizeGlucose(v), d.bmi, d.systolic, d.diastolic, d.cholesterol))
      else None,
      if d.cholesterol.Some? then
        var v := d.cholesterol.value;
        Some(CholesterolEntry(v, CategorizeCholesterol(v), d.bmi, d.systolic, d.diastolic, d.bloodGlucose))
      else None,
      if d.urineGlucose.Text? && d.urineProtein.Text? then
        Some(UrineEntry(Upper(d.urineGlucose.text), Upper(d.urineProtein.text)))
      else None,
      if d.psa.Some? then Some(PsaEntry(d.psa.value, PsaResult(d.psa.value), d.age, d.gender)) else None)
  }

  // ---------------------------------------------------------------- inline classifiers

  /*
   * analyze_individual_health writes its own if/elif chains for BMI, blood pressure, glucose,
   * cholesterol and PSA instead of calling the categorize_* functions. The model repeats each
   * chain as the code has it and proves it equal to the Classify function it duplicates.
   */

  /** The individual BMI chain as analyze_individual_health writes it. */
  method BmiCategoryOf(bmi: real) returns (category: IndividualBmi)
    ensures category == CategorizeIndividualBmi(bmi)
  {
    if bmi < 18.5 {
      category := Underweight;
    } else if 18.5 <= bmi <= 24.9 {
      category := IndividualNormal;
    } else if 25.0 <= bmi <= 29.9 {
      category := IndividualOverweight;
    } else {
      category := Obese;
    }
  }

  /** The blood pressure chain, repeated in analyze_individual_health; the same rule as categorize_bp. */
  method BpCategoryOf(systolic: real, diastolic: real) returns (category: BpCategory)
    ensures category == CategorizeBp(systolic, diastolic)
  {
    if systolic < 100.0 || diastolic < 60.0 {
      category := BpLow;
    } else if systolic > 160.0 || diastolic > 99.0 {
      category := BpHigh;
    } else if (141.0 <= systolic <= 160.0) || (91.0 <= diastolic <= 99.0) {
      category := BpModerateHigh;
    } else {
      category := BpNormal;
    }
  }

  /** The glucose chain, repeated in analyze_individual_health; the same rule as categorize_glucose. */
  method GlucoseCategoryOf(glucose: real) returns (category: GlucoseCategory)
    ensures category == CategorizeGlucose(glucose)
  {
    if glucose > 125.0 {
      category := Diabetic;
    } else if 100.0 <= glucose <= 125.0 {
      category := PreDiabetic;
    } else {
      category := GlucoseNormal;
    }
  }

  /** The cholesterol chain, repeated in analyze_individual_health; the same rule as categorize_cholesterol. */
  method CholesterolCategoryOf(cholesterol: real) returns (category: CholesterolCategory)
    ensures category == CategorizeCholesterol(cholesterol)
  {
    if cholesterol > 240.0 {
      category := CholesterolHigh;
    } else if 200.0 <= cholesterol <= 239.0 {
      category := BorderlineHigh;
    } else {
      category := CholesterolNormal;
    }
  }

  /** The PSA interpretation: text upper-cased, a number compared with 4.0. */
  method PsaResultOf(value: Psa) returns (result: string)
    ensures result == PsaResult(value)
  {
    match value {
      case PsaText(t) =>
        result := Upper(t);
      case PsaReading(x) =>
        if x > 4.0 {
          result := "POSITIVE";
        } else {
          result := "NEGATIVE";
        }
    }
  }

  /**
   * analyze_individual_health: starts from an empty dictionary and adds one key per metric
   * whose readings are present.
   */
  method AnalyzeIndividualHealth(d: Record) returns (a: Analysis)
    ensures a == Profile(d)
  {
    a := Analysis(None, None, None, None, None, None);
    if d.bmi.Some? {
      var category := BmiCategoryOf(d.bmi.value);
      a := a.(bmi := Some(BmiEntry(d.bmi.value, category, d.systolic, d.diastolic, d.bloodGlucose, d.cholesterol)));
    }
    assert a.bmi == Profile(d).bmi;
    if d.systolic.Some? && d.diastolic.Some? {
      var category := BpCategoryOf(d.systolic.value, d.diastolic.value);
      a := a.(bloodPressure := Some(BpEntry(d.systolic.value, d.diastolic.value, category, d.bmi, d.bloodGlucose, d.cholesterol)));
    }
    assert a.bloodPressure == Profile(d).bloodPressure;
    if d.bloodGlucose.Some? {
      var category := GlucoseCategoryOf(d.bloodGlucose.value);
      a := a.(bloodSugar := Some(SugarEntry(d.bloodGlucose.value, category, d.bmi, d.systolic, d.diastolic, d.cholesterol)));
    }
    assert a.bloodSugar == Profile(d).bloodSugar;
    if d.cholesterol.Some? {
      var category := CholesterolCategoryOf(d.cholesterol.value);
      a := a.(cholesterol := Some(CholesterolEntry(d.cholesterol.value, category, d.bmi, d.systolic, d.diastolic, d.bloodGlucose)));
    }
    assert a.cholesterol == Profile(d).cholesterol;
    if d.urineGlucose.Text? && d.urineProtein.Text? {
      a := a.(urine := Some(UrineEntry(Upper(d.urineGlucose.text), Upper(d.urineProtein.text))));
    }
    if d.psa.Some? {
      var result := PsaResultOf(d.psa.value);
      a := a.(psa := Some(PsaEntry(d.psa.value, result, d.age, d.gender)));
    }
  }

  // ---------------------------------------------------------------- what the profile means

  /**
   * Every entry carries the readings of the other metrics exactly as the row holds them,
   * missing ones included, next to its own reading and category.
   */
  lemma CrossReferencesCopied(d: Record)
    ensures var a := Profile(d);
      && (a.bmi.Some? ==> (a.bmi.value.value == d.bmi.value &&
            (a.bmi.value.systolic, a.bmi.value.diastolic, a.bmi.value.bloodGlucose, a.bmi.value.cholesterol)
              == (d.systolic, d.diastolic, d.bloodGlucose, d.cholesterol)))
      && (a.bloodPressure.Some? ==> (Some(a.bloodPressure.value.systolic) == d.systolic &&
            Some(a.bloodPressure.value.diastolic) == d.diastolic &&
            (a.bloodPressure.value.bmi, a.bloodPressure.value.bloodGlucose, a.bloodPressure.value.cholesterol)
              == (d.bmi, d.bloodGlucose, d.cholesterol)))
      && (a.bloodSugar.Some? ==> (Some(a.bloodSugar.value.value) == d.bloodGlucose &&
            (a.bloodSugar.value.bmi, a.bloodSugar.value.systolic, a.bloodSugar.value.diastolic, a.bloodSugar.value.cholesterol)
              == (d.bmi, d.systolic, d.diastolic, d.cholesterol)))
      && (a.cholesterol.Some? ==> (Some(a.cholesterol.value.value) == d.cholesterol &&
            (a.cholesterol.value.bmi, a.cholesterol.value.systolic, a.cholesterol.value.diastolic, a.cholesterol.value.bloodGlucose)
              == (d.bmi, d.systolic, d.diastolic, d.bloodGlucose)))
  {
  }

  /**
   * Urine results are upper-cased but, unlike the workbook analysis, neither stripped nor
   * dropped when blank: a blank cell still yields an entry.
   */
  lemma UrineEntryUpperCase(d: Record)
    requires d.urineGlucose.Text? && d.urineProtein.Text?
    ensures var u := Profile(d).urine;
      && u.Some?
      && Upper(u.value.glucose) == u.value.glucose && Upper(u.value.protein) == u.value.protein
      && |u.value.glucose| == |d.urineGlucose.text| && |u.value.protein| == |d.urineProtein.text|
  {
    UpperIdempotent(d.urineGlucose.text);
    UpperIdempotent(d.urineProtein.text);
  }

  /** A numeric PSA reading is interpreted against 4.0; text is kept, upper-cased. */
  lemma PsaEntryResult(d: Record)
    requires d.psa.Some?
    ensures var p := Profile(d).psa;
      && p.Some? && p.value.value == d.psa.value && p.value.age == d.age && p.value.gender == d.gender
      && (d.psa.value.PsaReading? ==> (p.value.result == "POSITIVE" <==> d.psa.value.reading > 4.0))
      && (d.psa.value.PsaReading? ==> (p.value.result == "NEGATIVE" <==> d.psa.value.reading <= 4.0))
      && (d.psa.value.PsaText? ==> p.value.result == Upper(d.psa.value.text))
  {
  }
}
