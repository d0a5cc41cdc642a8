/**
 * customers.csv as the two portals read it with pandas: every cell is text or missing (NaN),
 * and str(row['ID']) is the key under which a row's customer is stored.
 */
module CustomerFile {
  import opened Text

  /** One row of customers.csv: ID, Name, Email, Phone and (when the column exists) ReportFileName. */
  datatype CsvRow = CsvRow(id: Cell, name: Cell, email: Cell, phone: Cell, reportFile: Cell)

  /**
   * The file: its rows, whether the ID, Name, Email and Phone columns all exist (a row lookup
   * of a missing column raises KeyError), and whether the optional ReportFileName column exists.
   */
  datatype CustomerTable = CustomerTable(rows: seq<CsvRow>, hasRequiredColumns: bool, hasReportFileColumn: bool)

  /** The dictionary key of a row: str(row['ID']), not stripped. */
  function Key(row: CsvRow): string {
    Str(row.id)
  }

  /** The default report file name f"{row['ID']}.pdf". */
  function DefaultReportFile(row: CsvRow): (name: string)
    ensures |name| == |Key(row)| + 4
    ensures name[..|Key(row)|] == Key(row) && name[|Key(row)|..] == ".pdf"
  {
    Key(row) + ".pdf"
  }

  /** The dictionary left by assigning d[key] = value for each entry in turn: a later entry overwrites an earlier one. */
  function Assign<K, V>(entries: seq<(K, V)>): map<K, V> {
    if entries == [] then map[]
    else Assign(entries[..|entries| - 1])[entries[|entries| - 1].0 := entries[|entries| - 1].1]
  }

  /** The keys are exactly the entries' keys. */
  lemma {:induction false} AssignKeys<K, V>(entries: seq<(K, V)>, k: K)
    ensures k in Assign(entries) <==> exists i :: 0 <= i < |entries| && entries[i].0 == k
  {
    if entries != [] {
      var init := entries[..|entries| - 1];
      AssignKeys(init, k);
      if k in Assign(init) {
        var i :| 0 <= i < |init| && init[i].0 == k;
        assert entries[i] == init[i];
      }
      if exists i :: 0 <= i < |entries| && entries[i].0 == k {
        var i :| 0 <= i < |entries| && entries[i].0 == k;
        if i < |init| {
          assert init[i] == entries[i];
        }
      }
    }
  }

  /** A key holds the value of the last entry with that key. */
  lemma {:induction false} AssignLastWins<K, V>(entries: seq<(K, V)>, k: K)
    requires k in Assign(entries)
    ensures exists i :: (0 <= i < |entries| && entries[i] == (k, Assign(entries)[k])
      && forall j :: i < j < |entries| ==> entries[j].0 != k)
  {
    var init := entries[..|entries| - 1];
    var last := |entries| - 1;
    if entries[last].0 != k {
      AssignLastWins(init, k);
      var i :| 0 <= i < |init| && init[i] == (k, Assign(init)[k]) && forall j :: i < j < |init| ==> init[j].0 != k;
      assert entries[i] == init[i];
      forall j | i < j < |entries|
        ensures entries[j].0 != k
      {
        if j < |init| {
          assert entries[j] == init[j];
        }
      }
    }
  }
}
