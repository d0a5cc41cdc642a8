/**
 * generate_customer_csv: the screening workbook turned into the portal's customers.csv, one
 * line per row that has an enrollee ID, a name and an email, with the report file named after
 * the enrollee ID cleaned of the characters a file name cannot hold.
 */
module CustomerExport {
  import opened Wrappers
  import opened Text

  /** The cells of one workbook row that the export reads. */
  datatype SheetRow = SheetRow(enrolleeId: Cell, name: Cell, email: Cell, telNo: Cell)

  /** The workbook: its rows and which of the ENROLLEE ID, NAME, EMAIL and TEL NO columns exist. */
  datatype Sheet = Sheet(rows: seq<SheetRow>, hasEnrolleeId: bool, hasName: bool, hasEmail: bool, hasTelNo: bool)

  /** One line of customers.csv: ID, Name, Email, Phone, ReportFileName. */
  datatype CustomerLine = CustomerLine(id: string, name: string, email: string, phone: string, reportFileName: string)

  /** The characters replaced by '_' in a report file name, in the order the replace calls are chained. */
  const ForbiddenChars: seq<char> := ['/', '\\', ':', '*', '?', '"', '<', '>', '|']

  predicate Forbidden(c: char) {
    c == '/' || c == '\\' || c == ':' || c == '*' || c == '?' || c == '"' || c == '<' || c == '>' || c == '|'
  }

  lemma ForbiddenCharsListed(c: char)
    ensures c in ForbiddenChars <==> Forbidden(c)
  {
    if Forbidden(c) {
      assert c == ForbiddenChars[0] || c == ForbiddenChars[1] || c == ForbiddenChars[2] || c == ForbiddenChars[3]
        || c == ForbiddenChars[4] || c == ForbiddenChars[5] || c == ForbiddenChars[6] || c == ForbiddenChars[7]
        || c == ForbiddenChars[8];
    }
  }

  /** s.replace(chars[0], '_').replace(chars[1], '_')...: one str.replace per character, left to right. */
  function ReplaceEach(s: string, chars: seq<char>): string
    decreases |chars|
  {
    if chars == [] then s else ReplaceEach(ReplaceChar(s, chars[0], '_'), chars[1..])
  }

  /** The chain of nine str.replace calls that cleans an enrollee ID for use as a file name. */
  function CleanId(id: string): string {
    ReplaceEach(id, ForbiddenChars)
  }

  /** Replacing a list of characters by '_' in turn maps each character on its own. */
  lemma {:induction false} ReplaceEachPerChar(s: string, chars: seq<char>)
    requires '_' !in chars
    ensures |ReplaceEach(s, chars)| == |s|
    ensures forall i :: 0 <= i < |s| ==> ReplaceEach(s, chars)[i] == if s[i] in chars then '_' else s[i]
    decreases |chars|
  {
    if chars != [] {
      var t := ReplaceChar(s, chars[0], '_');
      ReplaceEachPerChar(t, chars[1..]);
      forall i | 0 <= i < |s|
        ensures ReplaceEach(s, chars)[i] == if s[i] in chars then '_' else s[i]
      {
        assert s[i] in chars <==> s[i] == chars[0] || s[i] in chars[1..];
      }
    }
  }

  /** Cleaning replaces each forbidden character by '_' and keeps every other character in place. */
  lemma CleanIdPerChar(id: string)
    ensures |CleanId(id)| == |id|
    ensures forall i :: 0 <= i < |id| ==> CleanId(id)[i] == if Forbidden(id[i]) then '_' else id[i]
  {
    ReplaceEachPerChar(id, ForbiddenChars);
    forall i | 0 <= i < |id| {
      ForbiddenCharsListed(id[i]);
    }
  }

  /** A cleaned ID holds no forbidden character, and cleaning it again changes nothing. */
  lemma CleanIdSafe(id: string)
    ensures forall i :: 0 <= i < |CleanId(id)| ==> !Forbidden(CleanId(id)[i])
    ensures CleanId(CleanId(id)) == CleanId(id)
  {
    CleanIdPerChar(id);
    CleanIdPerChar(CleanId(id));
  }

  /** An ID without forbidden characters is its own file name stem. */
  lemma CleanIdKeepsSafeIds(id: string)
    requires forall i :: 0 <= i < |id| ==> !Forbidden(id[i])
    ensures CleanId(id) == id
  {
    CleanIdPerChar(id);
  }

  /** A row with an enrollee ID, a name and an email (pd.isna is false for all three). */
  predicate Complete(row: SheetRow) {
    row.enrolleeId.Text? && row.name.Text? && row.email.Text?
  }

  /** The Phone value: the stripped TEL NO, or "Not Provided" when the column is absent, the cell is NaN or blank. */
  function PhoneOf(sheet: Sheet, row: SheetRow): (phone: string)
    ensures !sheet.hasTelNo ==> phone == "Not Provided"
    ensures sheet.hasTelNo && row.telNo.Missing? ==> phone == "Not Provided"
    ensures sheet.hasTelNo && row.telNo.Text? && Trim(row.telNo.text) == [] ==> phone == "Not Provided"
    ensures sheet.hasTelNo && row.telNo.Text? && Trim(row.telNo.text) == "nan" ==> phone == "Not Provided"
    ensures sheet.hasTelNo && row.telNo.Text? && Trim(row.telNo.text) != [] && Trim(row.telNo.text) != "nan" ==>
      phone == Trim(row.telNo.text)
  {
    var p := if sheet.hasTelNo then Trim(Str(row.telNo)) else "Not Provided";
    if p == "nan" || p == "" then "Not Provided" else p
  }

  /** The line written for a complete row. */
  function LineOf(sheet: Sheet, row: SheetRow): CustomerLine
    requires Complete(row)
  {
    var id := Trim(row.enrolleeId.text);
    CustomerLine(id, Trim(row.name.text), Lower(Trim(row.email.text)), PhoneOf(sheet, row), CleanId(id) + ".pdf")
  }

  /** The file name "<cleaned ID>.pdf" holds no forbidden character. */
  lemma FileNameSafe(id: string)
    ensures forall i :: 0 <= i < |CleanId(id) + ".pdf"| ==> !Forbidden((CleanId(id) + ".pdf")[i])
  {
    CleanIdSafe(id);
    var stem := CleanId(id);
    forall i | 0 <= i < |stem + ".pdf"|
      ensures !Forbidden((stem + ".pdf")[i])
    {
      if i < |stem| {
        assert (stem + ".pdf")[i] == stem[i];
      } else {
        var c := (stem + ".pdf")[i];
        assert c == ".pdf"[i - |stem|];
        assert c == '.' || c == 'p' || c == 'd' || c == 'f';
      }
    }
  }

  /** Every line's file name is its cleaned ID followed by ".pdf", free of forbidden characters. */
  lemma LineFileName(sheet: Sheet, row: SheetRow)
    requires Complete(row)
    ensures LineOf(sheet, row).reportFileName == CleanId(LineOf(sheet, row).id) + ".pdf"
    ensures |LineOf(sheet, row).reportFileName| == |LineOf(sheet, row).id| + 4
    ensures forall i :: 0 <= i < |LineOf(sheet, row).reportFileName| ==> !Forbidden(LineOf(sheet, row).reportFileName[i])
  {
    var id := Trim(row.enrolleeId.text);
    CleanIdPerChar(id);
    FileNameSafe(id);
  }

  /** The complete rows, in their order. */
  function Kept(rows: seq<SheetRow>): (kept: seq<SheetRow>)
    ensures |kept| <= |rows|
    ensures forall k :: 0 <= k < |kept| ==> Complete(kept[k])
  {
    if rows == [] then []
    else
      var last := rows[|rows| - 1];
      Kept(rows[..|rows| - 1]) + if Complete(last) then [last] else []
  }

  /** The line of each complete row. */
  function Lines(sheet: Sheet, kept: seq<SheetRow>): (lines: seq<CustomerLine>)
    requires forall k :: 0 <= k < |kept| ==> Complete(kept[k])
    ensures |lines| == |kept|
  {
    seq(|kept|, k requires 0 <= k < |kept| => LineOf(sheet, kept[k]))
  }

  /** The lines written for the given rows: incomplete rows are skipped, the rest keep their order. */
  function Export(sheet: Sheet, rows: seq<SheetRow>): (lines: seq<CustomerLine>)
    ensures |lines| <= |rows|
  {
    Lines(sheet, Kept(rows))
  }

  /** One more row adds its line when it is complete. */
  lemma ExportStep(sheet: Sheet, rows: seq<SheetRow>, i: nat)
    requires i < |rows|
    ensures Export(sheet, rows[..i + 1]) == Export(sheet, rows[..i]) + if Complete(rows[i]) then [LineOf(sheet, rows[i])] else []
  {
    assert rows[..i + 1][..i] == rows[..i];
  }

  /** The positions of the complete rows, in increasing order. */
  function KeptIndices(rows: seq<SheetRow>): (idx: seq<nat>)
    ensures forall k :: 0 <= k < |idx| ==> idx[k] < |rows| && Complete(rows[idx[k]])
    ensures forall k, l :: 0 <= k < l < |idx| ==> idx[k] < idx[l]
  {
    if rows == [] then []
    else
      var n := |rows| - 1;
      var init := KeptIndices(rows[..n]);
      assert forall k :: 0 <= k < |init| ==> rows[..n][init[k]] == rows[init[k]];
      init + if Complete(rows[n]) then [n] else []
  }

  /** Every complete row's position is kept. */
  lemma {:induction false} KeptIndicesComplete(rows: seq<SheetRow>, i: nat)
    requires i < |rows| && Complete(rows[i])
    ensures i in KeptIndices(rows)
  {
    var n := |rows| - 1;
    if i < n {
      assert rows[..n][i] == rows[i];
      KeptIndicesComplete(rows[..n], i);
    }
  }

  /** The k-th kept row is the row at the k-th kept position. */
  lemma {:induction false} KeptByIndex(rows: seq<SheetRow>)
    ensures |Kept(rows)| == |KeptIndices(rows)|
    ensures forall k :: 0 <= k < |KeptIndices(rows)| ==> Kept(rows)[k] == rows[KeptIndices(rows)[k]]
  {
    if rows != [] {
      var n := |rows| - 1;
      KeptByIndex(rows[..n]);
      var init := KeptIndices(rows[..n]);
      assert forall k :: 0 <= k < |init| ==> rows[..n][init[k]] == rows[init[k]];
    }
  }

  /** The k-th line is the line of the k-th complete row. */
  lemma ExportByIndex(sheet: Sheet, rows: seq<SheetRow>)
    ensures |Export(sheet, rows)| == |KeptIndices(rows)|
    ensures forall k :: 0 <= k < |KeptIndices(rows)| ==> Export(sheet, rows)[k] == LineOf(sheet, rows[KeptIndices(rows)[k]])
  {
    KeptByIndex(rows);
  }

  /** No line is written iff no row is complete. */
  lemma ExportEmpty(sheet: Sheet, rows: seq<SheetRow>)
    ensures Export(sheet, rows) == [] <==> forall i :: 0 <= i < |rows| ==> !Complete(rows[i])
  {
    ExportByIndex(sheet, rows);
    if KeptIndices(rows) != [] {
      var first := KeptIndices(rows)[0];
      assert first < |rows| && Complete(rows[first]);
    }
    if i :| 0 <= i < |rows| && Complete(rows[i]) {
      KeptIndicesComplete(rows, i);
    }
  }

  /** The body of the row loop for a complete row: the cleaned ID and the line appended. */
  method BuildLine(sheet: Sheet, row: SheetRow) returns (cleanId: string, line: CustomerLine)
    requires Complete(row)
    ensures cleanId == CleanId(line.id) && line == LineOf(sheet, row)
  {
    var enrolleeId := Trim(row.enrolleeId.text);
    cleanId := CleanId(enrolleeId);
    var name := Trim(row.name.text);
    var email := Lower(Trim(row.email.text));
    var phone := if sheet.hasTelNo then Trim(Str(row.telNo)) else "Not Provided";
    if phone == "nan" || phone == "" {
      phone := "Not Provided";
    }
    assert phone == PhoneOf(sheet, row);
    var reportFilename := cleanId + ".pdf";
    line := CustomerLine(enrolleeId, name, email, phone, reportFilename);
  }

  /** ENROLLEE ID, NAME and EMAIL are all columns of the sheet. */
  predicate HasRequiredColumns(sheet: Sheet) {
    sheet.hasEnrolleeId && sheet.hasName && sheet.hasEmail
  }

  /**
   * generate_customer_csv: without a required column it returns False and writes nothing;
   * otherwise it writes the lines of the complete rows in order, and returns True only when
   * at least one line was written (with none, the summary print reads an unbound clean_id and
   * the handler returns False).
   */
  method GenerateCustomerCsv(sheet: Sheet) returns (ok: bool, written: Option<seq<CustomerLine>>)
    ensures !HasRequiredColumns(sheet) ==> !ok && written == None
    ensures HasRequiredColumns(sheet) ==> written == Some(Export(sheet, sheet.rows))
    ensures ok <==> HasRequiredColumns(sheet) && exists i :: 0 <= i < |sheet.rows| && Complete(sheet.rows[i])
  {
    if !HasRequiredColumns(sheet) {
      return false, None;
    }
    var customersData: seq<CustomerLine> := [];
    var cleanId: Option<string> := None;
    for idx := 0 to |sheet.rows|
      invariant customersData == Export(sheet, sheet.rows[..idx])
      invariant cleanId.None? <==> customersData == []
    {
      var row := sheet.rows[idx];
      ExportStep(sheet, sheet.rows, idx);
      if row.enrolleeId.Missing? || row.name.Missing? || row.email.Missing? {
        continue;
      }
      var clean, line := BuildLine(sheet, row);
      cleanId := Some(clean);
      customersData := customersData + [line];
    }
    assert sheet.rows[..|sheet.rows|] == sheet.rows;
    written := Some(customersData);
    ExportEmpty(sheet, sheet.rows);
    if cleanId.None? {
      return false, written;
    }
    ok := true;
  }
}
