/**
 * One row of the screening workbook, after pandas has read it: every cell may be missing
 * (NaN), numeric columns hold numbers, and the urine columns hold free text.
 */
module Records {
  import opened Wrappers
  import opened Text
  import opened Classify

  datatype Record = Record(
    enrolleeId: Option<string>,
    gender: Option<string>,
    age: Option<real>,
    systolic: Option<real>,
    diastolic: Option<real>,
    bloodGlucose: Option<real>,
    cholesterol: Option<real>,
    bmi: Option<real>,
    urineGlucose: Cell,
    urineProtein: Cell,
    psa: Option<Psa>)

  /**
   * The workbook: its rows and whether the optional CHOLESTEROL column and the urine
   * GLUCOSE and PROTEIN columns exist (a row of a workbook without a column holds no
   * value for it).
   */
  datatype Workbook = Workbook(rows: seq<Record>, hasCholesterolColumn: bool, hasUrineColumns: bool)
}
