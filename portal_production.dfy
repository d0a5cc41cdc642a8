/**
 * The customer database of the production portal: customers.csv loaded into a dictionary
 * keyed by str(ID), and credential verification that strips and lower-cases the email and
 * tolerates one leading '0' on either phone number.
 */
module PortalProduction {
  import opened Wrappers
  import opened Text
  import opened CustomerFile

  /** The record stored per customer: every field stringified and stripped, the email lower-cased. */
  datatype Customer = Customer(name: string, email: string, phone: string, reportFile: string)

  /** The record load_customers builds from one row. */
  function CustomerOf(t: CustomerTable, row: CsvRow): Customer {
    Customer(
      Trim(Str(row.name)),
      Lower(Trim(Str(row.email))),
      Trim(Str(row.phone)),
      Trim(if t.hasReportFileColumn then Str(row.reportFile) else DefaultReportFile(row)))
  }

  /** A stored record is in normal form: stripped fields and a stripped, lower-case email. */
  predicate Normalized(c: Customer) {
    Trim(c.name) == c.name && Lower(Trim(c.email)) == c.email && Trim(c.phone) == c.phone && Trim(c.reportFile) == c.reportFile
  }

  /** Every record load_customers builds is in normal form, and the default file name is the stripped "<ID>.pdf". */
  lemma CustomerOfNormalized(t: CustomerTable, row: CsvRow)
    ensures Normalized(CustomerOf(t, row))
    ensures !t.hasReportFileColumn ==> CustomerOf(t, row).reportFile == Trim(Key(row) + ".pdf")
  {
    TrimIdempotent(Str(row.name));
    NormalizeEmailIdempotent(Str(row.email));
    TrimIdempotent(Str(row.phone));
    TrimIdempotent(if t.hasReportFileColumn then Str(row.reportFile) else DefaultReportFile(row));
  }

  /** The (key, record) pair load_customers assigns for each row, in row order. */
  function Entries(t: CustomerTable, rows: seq<CsvRow>): (entries: seq<(string, Customer)>)
    ensures |entries| == |rows|
    ensures forall i :: 0 <= i < |rows| ==> entries[i] == (Key(rows[i]), CustomerOf(t, rows[i]))
  {
    seq(|rows|, i requires 0 <= i < |rows| => (Key(rows[i]), CustomerOf(t, rows[i])))
  }

  /** load_customers: a missing column raises on the first row and the handler returns {}. */
  function Loaded(t: CustomerTable): map<string, Customer> {
    if t.hasRequiredColumns then Assign(Entries(t, t.rows)) else map[]
  }

  /** One more row assigns its record under its key. */
  lemma LoadStep(t: CustomerTable, i: nat)
    requires i < |t.rows|
    ensures Assign(Entries(t, t.rows[..i + 1])) == Assign(Entries(t, t.rows[..i]))[Key(t.rows[i]) := CustomerOf(t, t.rows[i])]
  {
    var entries := Entries(t, t.rows[..i + 1]);
    assert entries[..i] == Entries(t, t.rows[..i]);
  }

  /**
   * The loaded keys are exactly the rows' str(ID) values (when the columns exist), and each
   * holds the record built from the last row with that key.
   */
  lemma LoadedRecords(t: CustomerTable, k: string)
    ensures k in Loaded(t) <==> t.hasRequiredColumns && exists i :: 0 <= i < |t.rows| && Key(t.rows[i]) == k
    ensures k in Loaded(t) ==> exists i :: (0 <= i < |t.rows| && Key(t.rows[i]) == k && Loaded(t)[k] == CustomerOf(t, t.rows[i])
      && forall j :: i < j < |t.rows| ==> Key(t.rows[j]) != k)
  {
    if t.hasRequiredColumns {
      var es := Entries(t, t.rows);
      AssignKeys(es, k);
      if k in Loaded(t) {
        AssignLastWins(es, k);
        var i :| 0 <= i < |es| && es[i] == (k, Assign(es)[k]) && forall j :: i < j < |es| ==> es[j].0 != k;
        assert Key(t.rows[i]) == k && Loaded(t)[k] == CustomerOf(t, t.rows[i]);
        assert forall j :: i < j < |t.rows| ==> Key(t.rows[j]) != k by {
          forall j | i < j < |t.rows|
            ensures Key(t.rows[j]) != k
          {
            assert es[j].0 == Key(t.rows[j]);
          }
        }
      }
      if exists i :: 0 <= i < |t.rows| && Key(t.rows[i]) == k {
        var i :| 0 <= i < |t.rows| && Key(t.rows[i]) == k;
        assert es[i].0 == k;
      }
    }
  }

  /** Every record of the loaded dictionary is in normal form. */
  lemma LoadedNormalized(t: CustomerTable, k: string)
    requires k in Loaded(t)
    ensures Normalized(Loaded(t)[k])
  {
    var es := Entries(t, t.rows);
    AssignLastWins(es, k);
    var i :| 0 <= i < |es| && es[i] == (k, Assign(es)[k]);
    assert Loaded(t)[k] == es[i].1 == CustomerOf(t, t.rows[i]);
    CustomerOfNormalized(t, t.rows[i]);
  }

  /** phone[1:] when the phone starts with '0': exactly one leading zero is removed. */
  function DropLeadingZero(phone: string): (r: string)
    ensures phone != [] && phone[0] == '0' ==> phone == "0" + r
    ensures (phone == [] || phone[0] != '0') ==> r == phone
  {
    if |phone| > 0 && phone[0] == '0' then phone[1..] else phone
  }

  predicate StartsWithZero(phone: string) {
    phone != [] && phone[0] == '0'
  }

  /**
   * Two phone numbers are the same, or one is the other with a '0' put in front of a number
   * that does not itself start with '0' ("0801" and "801" match, "0080" and "080" do not).
   */
  predicate PhonesMatch(stored: string, given: string) {
    stored == given || (stored == "0" + given && !StartsWithZero(given)) || (given == "0" + stored && !StartsWithZero(stored))
  }

  /** The comparison verify_customer writes is PhonesMatch. */
  lemma PhoneComparison(stored: string, given: string)
    ensures (stored == given || DropLeadingZero(stored) == DropLeadingZero(given)) <==> PhonesMatch(stored, given)
  {
    var s, g := DropLeadingZero(stored), DropLeadingZero(given);
    if StartsWithZero(stored) && StartsWithZero(given) && s == g {
      assert stored == "0" + s && given == "0" + g;
    }
    if stored == "0" + given && !StartsWithZero(given) {
      assert stored[1..] == given;
    }
    if given == "0" + stored && !StartsWithZero(stored) {
      assert given[1..] == stored;
    }
  }

  /** Phone matching does not depend on which side is stored. */
  lemma PhonesMatchSymmetric(a: string, b: string)
    ensures PhonesMatch(a, b) <==> PhonesMatch(b, a)
  {
  }

  /** "0801" matches a stored "801", and "801" matches a stored "0801". */
  lemma LeadingZeroTolerated()
    ensures PhonesMatch("801", "0801") && PhonesMatch("0801", "801")
  {
    assert "0801" == "0" + "801";
  }

  /** Only one zero is removed: "0080" normalises to "080", and "0080" does not match "080". */
  lemma OneZeroOnly()
    ensures DropLeadingZero("0080") == "080"
    ensures !PhonesMatch("080", "0080") && !PhonesMatch("0080", "080")
  {
    assert "0080"[1..] == "080";
    assert "0" + "0080" == "00080";
    assert "0" + "080" == "0080";
  }

  class CustomerDatabase {
    var customers: map<string, Customer>

    /** Every stored record is in normal form. */
    predicate Valid()
      reads this
    {
      forall k :: k in customers ==> Normalized(customers[k])
    }

    /** __init__: the dictionary load_customers returns. */
    constructor (t: CustomerTable)
      ensures customers == Loaded(t)
      ensures Valid()
    {
      var loaded := LoadCustomers(t);
      customers := loaded;
      new;
      forall k | k in customers
        ensures Normalized(customers[k])
      {
        LoadedNormalized(t, k);
      }
    }

    /** load_customers: one assignment per row, keyed by str(ID). */
    static method LoadCustomers(t: CustomerTable) returns (customers: map<string, Customer>)
      ensures customers == Loaded(t)
    {
      customers := map[];
      for i := 0 to |t.rows|
        invariant t.hasRequiredColumns || i == 0
        invariant customers == Assign(Entries(t, t.rows[..i]))
      {
        if !t.hasRequiredColumns {
          customers := map[];
          return;
        }
        var row := t.rows[i];
        var report := if t.hasReportFileColumn then Str(row.reportFile) else DefaultReportFile(row);
        var customer := Customer(Trim(Str(row.name)), Lower(Trim(Str(row.email))), Trim(Str(row.phone)), Trim(report));
        assert customer == CustomerOf(t, row);
        LoadStep(t, i);
        customers := customers[Str(row.id) := customer];
      }
      assert t.rows[..|t.rows|] == t.rows;
    }

    /**
     * verify_customer: the stripped ID must be a key, the stripped and lower-cased email must
     * equal the stored one, and the stripped phone must equal the stored one up to one leading
     * '0' on either side; the stored record is returned, otherwise None.
     */
    function VerifyCustomer(customerId: string, email: string, phone: string): (r: Option<Customer>)
      reads this
      ensures r.Some? <==>
        (Trim(customerId) in customers && customers[Trim(customerId)].email == Lower(Trim(email))
         && PhonesMatch(customers[Trim(customerId)].phone, Trim(phone)))
      ensures r.Some? ==> r == GetCustomerById(Trim(customerId))
    {
      var id := Trim(customerId);
      var e := Lower(Trim(email));
      var p := Trim(phone);
      var pNormalized := DropLeadingZero(p);
      if id in customers then
        var customer := customers[id];
        var customerPhone := customer.phone;
        var customerPhoneNormalized := DropLeadingZero(customerPhone);
        PhoneComparison(customerPhone, p);
        if customer.email == e && (customerPhone == p || customerPhoneNormalized == pNormalized) then Some(customer) else None
      else
        None
    }

    /** get_customer_by_id: a plain lookup at str(id), without stripping. */
    function GetCustomerById(customerId: string): (r: Option<Customer>)
      reads this
      ensures r.Some? <==> customerId in customers
      ensures r.Some? ==> r.value == customers[customerId]
    {
      if customerId in customers then Some(customers[customerId]) else None
    }
  }

  /** A key with surrounding whitespace can be fetched by get_customer_by_id but never verified. */
  lemma VerifiedKeysStripped(db: CustomerDatabase, customerId: string, email: string, phone: string)
    requires db.VerifyCustomer(customerId, email, phone).Some?
    ensures Trim(customerId) in db.customers && Trim(Trim(customerId)) == Trim(customerId)
  {
    TrimIdempotent(customerId);
  }

  /** Verification does not depend on the case of the email given. */
  lemma EmailCaseIgnored(db: CustomerDatabase, customerId: string, email: string, phone: string)
    ensures db.VerifyCustomer(customerId, Upper(email), phone) == db.VerifyCustomer(customerId, email, phone)
  {
    NormalizeEmailIgnoresCase(email);
  }

  /** A customer of a loaded database verifies with the stored email and phone, given with any padding. */
  lemma StoredCredentialsVerify(db: CustomerDatabase, k: string, pad: string)
    requires db.Valid() && k in db.customers && Trim(k) == k
    requires forall i :: 0 <= i < |pad| ==> IsSpace(pad[i])
    ensures db.VerifyCustomer(k, pad + db.customers[k].email, db.customers[k].phone) == Some(db.customers[k])
  {
    var c := db.customers[k];
    PaddingStripped(pad, c.email);
  }
}
