/**
 * The customer database of the development portal: customers.csv loaded into a dictionary
 * keyed by str(ID), and credential verification that strips and lower-cases the email but
 * compares the stripped phone exactly.
 */
module Portal {
  import opened Wrappers
  import opened Text
  import opened CustomerFile

  /**
   * The record stored per customer. The name and email are stripped (the email lower-cased),
   * the phone is stringified and stripped, and the report file is the raw ReportFileName cell
   * (or "<ID>.pdf" when that column does not exist).
   */
  datatype Customer = Customer(name: string, email: string, phone: string, reportFile: Cell)

  /** A row whose Name and Email cells hold text: .strip() on a NaN cell raises AttributeError. */
  predicate Readable(row: CsvRow) {
    row.name.Text? && row.email.Text?
  }

  predicate AllReadable(rows: seq<CsvRow>) {
    forall i :: 0 <= i < |rows| ==> Readable(rows[i])
  }

  lemma ReadableStep(rows: seq<CsvRow>, i: nat)
    requires i < |rows| && AllReadable(rows[..i]) && Readable(rows[i])
    ensures AllReadable(rows[..i + 1])
  {
    assert forall j :: 0 <= j < i ==> rows[..i][j] == rows[j];
  }

  /** The record load_customers builds from a readable row. */
  function CustomerOf(t: CustomerTable, row: CsvRow): Customer {
    Customer(
      Trim(Str(row.name)),
      Lower(Trim(Str(row.email))),
      Trim(Str(row.phone)),
      if t.hasReportFileColumn then row.reportFile else Text(DefaultReportFile(row)))
  }

  /** The (key, record) pair load_customers assigns for each row, in row order. */
  function Entries(t: CustomerTable, rows: seq<CsvRow>): (entries: seq<(string, Customer)>)
    ensures |entries| == |rows|
    ensures forall i :: 0 <= i < |rows| ==> entries[i] == (Key(rows[i]), CustomerOf(t, rows[i]))
  {
    seq(|rows|, i requires 0 <= i < |rows| => (Key(rows[i]), CustomerOf(t, rows[i])))
  }

  /**
   * load_customers: a missing column or a missing Name or Email cell raises inside the loop,
   * and the handler returns {} in place of everything loaded so far.
   */
  function Loaded(t: CustomerTable): map<string, Customer> {
    if t.hasRequiredColumns && AllReadable(t.rows) then Assign(Entries(t, t.rows))
    else map[]
  }

  /** One more row assigns its record under its key. */
  lemma LoadStep(t: CustomerTable, i: nat)
    requires i < |t.rows|
    ensures Assign(Entries(t, t.rows[..i + 1])) == Assign(Entries(t, t.rows[..i]))[Key(t.rows[i]) := CustomerOf(t, t.rows[i])]
  {
    var entries := Entries(t, t.rows[..i + 1]);
    assert entries[..i] == Entries(t, t.rows[..i]);
  }

  /** One row without a Name or Email empties the whole dictionary. */
  lemma UnreadableRowEmpties(t: CustomerTable, i: nat)
    requires i < |t.rows| && !Readable(t.rows[i])
    ensures Loaded(t) == map[]
  {
  }

  /**
   * When every row is readable, the keys are the rows' str(ID) values, each holding the record
   * of the last row with that key.
   */
  lemma LoadedRecords(t: CustomerTable, k: string)
    requires t.hasRequiredColumns && AllReadable(t.rows)
    ensures k in Loaded(t) <==> exists i :: 0 <= i < |t.rows| && Key(t.rows[i]) == k
    ensures k in Loaded(t) ==> exists i :: (0 <= i < |t.rows| && Key(t.rows[i]) == k && Loaded(t)[k] == CustomerOf(t, t.rows[i])
      && forall j :: i < j < |t.rows| ==> Key(t.rows[j]) != k)
  {
    var es := Entries(t, t.rows);
    AssignKeys(es, k);
    if k in Loaded(t) {
      AssignLastWins(es, k);
      var i :| 0 <= i < |es| && es[i] == (k, Assign(es)[k]) && forall j :: i < j < |es| ==> es[j].0 != k;
      assert Key(t.rows[i]) == k && Loaded(t)[k] == CustomerOf(t, t.rows[i]);
      assert forall j :: i < j < |t.rows| ==> Key(t.rows[j]) != k by {
        forall j | i < j < |t.rows|
          ensures Key(t.rows[j]) != k
        {
          assert es[j].0 == Key(t.rows[j]);
        }
      }
    }
    if exists i :: 0 <= i < |t.rows| && Key(t.rows[i]) == k {
      var i :| 0 <= i < |t.rows| && Key(t.rows[i]) == k;
      assert es[i].0 == k;
    }
  }

  /** The stored email is stripped and lower-case, and the stored phone is stripped. */
  predicate Normalized(c: Customer) {
    Lower(Trim(c.email)) == c.email && Trim(c.phone) == c.phone
  }

  /** Every record of the loaded dictionary is in normal form. */
  lemma LoadedNormalized(t: CustomerTable, k: string)
    requires k in Loaded(t)
    ensures Normalized(Loaded(t)[k])
  {
    var es := Entries(t, t.rows);
    AssignLastWins(es, k);
    var i :| 0 <= i < |es| && es[i] == (k, Assign(es)[k]);
    var row := t.rows[i];
    assert Loaded(t)[k] == es[i].1 == CustomerOf(t, row);
    NormalizeEmailIdempotent(Str(row.email));
    TrimIdempotent(Str(row.phone));
  }

  /** The dictionary literal of one row: .strip() and .lower() applied to the Name and Email texts. */
  method BuildCustomer(t: CustomerTable, row: CsvRow) returns (customer: Customer)
    requires Readable(row)
    ensures customer == CustomerOf(t, row)
  {
    var report := if t.hasReportFileColumn then row.reportFile else Text(DefaultReportFile(row));
    customer := Customer(Trim(row.name.text), Lower(Trim(row.email.text)), Trim(Str(row.phone)), report);
  }

  class CustomerDatabase {
    var customers: map<string, Customer>

    /** Every stored record is in normal form. */
    predicate Valid()
      reads this
    {
      forall k :: k in customers ==> Normalized(customers[k])
    }

    /** __init__: the dictionary load_customers returns. */
    constructor (t: CustomerTable)
      ensures customers == Loaded(t)
      ensures Valid()
    {
      var loaded := LoadCustomers(t);
      customers := loaded;
      new;
      forall k | k in customers
        ensures Normalized(customers[k])
      {
        LoadedNormalized(t, k);
      }
    }

    /** load_customers: one assignment per row, abandoned with {} at the first row that raises. */
    static method LoadCustomers(t: CustomerTable) returns (customers: map<string, Customer>)
      ensures customers == Loaded(t)
    {
      customers := map[];
      for i := 0 to |t.rows|
        invariant t.hasRequiredColumns || i == 0
        invariant AllReadable(t.rows[..i])
        invariant customers == Assign(Entries(t, t.rows[..i]))
      {
        var row := t.rows[i];
        if !t.hasRequiredColumns || row.name.Missing? || row.email.Missing? {
          if t.hasRequiredColumns {
            UnreadableRowEmpties(t, i);
          }
          customers := map[];
          return;
        }
        var customer := BuildCustomer(t, row);
        ReadableStep(t.rows, i);
        LoadStep(t, i);
        customers := customers[Str(row.id) := customer];
      }
      assert t.rows[..|t.rows|] == t.rows;
    }

    /**
     * verify_customer: the stripped ID must be a key, the stripped and lower-cased email must
     * equal the stored one, and the stripped phone must equal the stored one exactly; the
     * stored record is returned, otherwise None.
     */
    function VerifyCustomer(customerId: string, email: string, phone: string): (r: Option<Customer>)
      reads this
      ensures r.Some? <==>
        (Trim(customerId) in customers && customers[Trim(customerId)].email == Lower(Trim(email))
         && customers[Trim(customerId)].phone == Trim(phone))
      ensures r.Some? ==> r == GetCustomerById(Trim(customerId))
    {
      var id := Trim(customerId);
      if id in customers && customers[id].email == Lower(Trim(email)) && customers[id].phone == Trim(phone) then
        Some(customers[id])
      else
        None
    }

    /** get_customer_by_id: a plain lookup at str(id), without stripping. */
    function GetCustomerById(customerId: string): (r: Option<Customer>)
      reads this
      ensures r.Some? <==> customerId in customers
      ensures r.Some? ==> r.value == customers[customerId]
    {
      if customerId in customers then Some(customers[customerId]) else None
    }
  }

  /** Unlike the production portal, a stored phone given with an extra leading '0' is refused. */
  lemma LeadingZeroRefused(db: CustomerDatabase, k: string, email: string)
    requires db.Valid() && k in db.customers && Trim(k) == k
    ensures db.VerifyCustomer(k, email, "0" + db.customers[k].phone).None?
  {
    var stored := db.customers[k].phone;
    assert Normalized(db.customers[k]);
    PrefixNeverStrippedTo('0', stored);
    assert "0" + stored == ['0'] + stored;
    PhoneMismatchRefused(db, k, email, "0" + stored);
  }

  /** A phone whose stripped form differs from the stored one is refused. */
  lemma PhoneMismatchRefused(db: CustomerDatabase, customerId: string, email: string, phone: string)
    requires Trim(customerId) in db.customers ==> db.customers[Trim(customerId)].phone != Trim(phone)
    ensures db.VerifyCustomer(customerId, email, phone).None?
  {
  }

  /** Verification does not depend on the case of the email given. */
  lemma EmailCaseIgnored(db: CustomerDatabase, customerId: string, email: string, phone: string)
    ensures db.VerifyCustomer(customerId, Upper(email), phone) == db.VerifyCustomer(customerId, email, phone)
  {
    NormalizeEmailIgnoresCase(email);
  }

  /** A customer of a loaded database verifies with the stored email and phone, the email given with any padding. */
  lemma StoredCredentialsVerify(db: CustomerDatabase, k: string, pad: string)
    requires db.Valid() && k in db.customers && Trim(k) == k
    requires forall i :: 0 <= i < |pad| ==> IsSpace(pad[i])
    ensures db.VerifyCustomer(k, pad + db.customers[k].email, db.customers[k].phone) == Some(db.customers[k])
  {
    PaddingStripped(pad, db.customers[k].email);
  }
}
