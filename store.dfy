/**
  The in-memory record store and the action dispatcher.

  `Db` is the store as a value and `Apply` is what one dispatched action does to
  it; the class `RecordStore` holds the same collections as mutable fields and its
  methods update them in place, each proved to agree with the value-level function.
 */
module Store {
  import opened Wrappers
  import opened OrderedDict
  import opened Actions
  import Decimal

  datatype Rule = Rule(email: string, rule: string)

  /** A sent email as stored: attachments are not kept. */
  datatype EmailRecord = EmailRecord(to: string, subject: string, message: string)

  datatype Product = Product(name: string, price: nat)

  /**
    An invoice. `total` is the undiscounted list-price sum in whole currency
    units; `discountCents` is the discount amount in hundredths of a unit.
   */
  datatype Invoice = Invoice(
    id: string,
    email: string,
    file: string,
    skus: seq<string>,
    discountCents: int,
    discountPercent: int,
    total: nat,
    void: bool)

  datatype CustomerData = CustomerData(
    rules: seq<Rule>,
    invoices: Dict<string, Invoice>,
    emails: seq<EmailRecord>)

  /** What `dispatch` returns: a plain message string, a record, or nothing. */
  datatype Reply =
    | Text(text: string)
    | EmailSent(email: EmailRecord)
    | RuleSaved(rule: Rule)
    | Customer(data: CustomerData)
    | InvoiceRecord(invoice: Invoice)
    | NoReply

  datatype Db = Db(
    rules: seq<Rule>,
    invoices: Dict<string, Invoice>,
    emails: seq<EmailRecord>,
    products: map<string, Product>)

  /** The product catalogue the store is seeded with. */
  const Catalog: map<string, Product> := map[
    "SKU-205" := Product("AGI course 101 Personal", 258),
    "SKU-210" := Product("AGI 101 Course Team", 1290),
    "SKU-220" := Product("Building AGI - Online Excercises", 315)]

  // ---------------------------------------------------------------------------
  // Invoice identifiers

  /** `f"INV-{n}"`: the prefix, then the decimal digits of n, which read back as n. */
  function InvoiceId(n: nat): (id: string)
    ensures |id| > 4 && id[..4] == "INV-"
    ensures forall i :: 4 <= i < |id| ==> Decimal.IsDigit(id[i])
    ensures Decimal.Value(id[4..]) == n
  {
    var id := "INV-" + Decimal.Format(n);
    assert id[4..] == Decimal.Format(n);
    Decimal.ValueOfFormat(n);
    id
  }

  /** The file path is the id between "/invoices" and ".pdf", with no separator. */
  function InvoiceFile(id: string): string {
    "/invoices" + id + ".pdf"
  }

  lemma InvoiceIdInjective(m: nat, n: nat)
    requires InvoiceId(m) == InvoiceId(n)
    ensures m == n
  {
    assert InvoiceId(m)[4..] == Decimal.Format(m);
    assert InvoiceId(n)[4..] == Decimal.Format(n);
    Decimal.FormatInjective(m, n);
  }

  /** Entry k of the invoice table is INV-(k+1), and its record carries that id and file. */
  predicate WellKeyed(invoices: Dict<string, Invoice>) {
    forall k :: 0 <= k < |invoices| ==>
      && invoices[k].0 == InvoiceId(k + 1)
      && invoices[k].1.id == invoices[k].0
      && invoices[k].1.file == InvoiceFile(invoices[k].0)
  }

  /** In a well-keyed table the keys are exactly INV-1 .. INV-n, INV-k at position k-1. */
  lemma InvoiceKeys(invoices: Dict<string, Invoice>, n: nat)
    requires WellKeyed(invoices)
    ensures HasKey(invoices, InvoiceId(n)) <==> 1 <= n <= |invoices|
    ensures 1 <= n <= |invoices| ==> IndexOf(invoices, InvoiceId(n)) == n - 1
  {
    var id := InvoiceId(n);
    var i := IndexOf(invoices, id);
    if 1 <= n <= |invoices| {
      assert invoices[n - 1].0 == id;
    }
    if i < |invoices| {
      assert invoices[i].0 == InvoiceId(i + 1);
      InvoiceIdInjective(i + 1, n);
    }
  }

  /** Appending the record INV-(n+1) to a well-keyed table of n keeps it well keyed. */
  lemma AppendKeepsWellKeyed(invoices: Dict<string, Invoice>, invoice: Invoice)
    requires WellKeyed(invoices)
    requires invoice.id == InvoiceId(|invoices| + 1) && invoice.file == InvoiceFile(invoice.id)
    ensures WellKeyed(invoices + [(invoice.id, invoice)])
  {
    var r := invoices + [(invoice.id, invoice)];
    assert forall k :: 0 <= k < |invoices| ==> r[k] == invoices[k];
  }

  /** The id the next invoice gets is not yet a key, so inserting it never overwrites. */
  lemma NextIdIsFresh(invoices: Dict<string, Invoice>)
    requires WellKeyed(invoices)
    ensures !HasKey(invoices, InvoiceId(|invoices| + 1))
  {
    InvoiceKeys(invoices, |invoices| + 1);
  }

  // ---------------------------------------------------------------------------
  // Pricing

  /** Position of the first SKU missing from the catalogue, or |skus| when all are known. */
  function FirstMissing(products: map<string, Product>, skus: seq<string>): (k: nat)
    ensures k <= |skus|
    ensures forall j :: 0 <= j < k ==> skus[j] in products
    ensures k < |skus| ==> skus[k] !in products
  {
    if skus == [] then 0
    else if skus[0] !in products then 0
    else 1 + FirstMissing(products, skus[1..])
  }

  /** Sum of the catalogue prices of `skus`, every occurrence counted. */
  function Total(products: map<string, Product>, skus: seq<string>): nat
    requires forall j :: 0 <= j < |skus| ==> skus[j] in products
  {
    if skus == [] then 0
    else Total(products, skus[..|skus| - 1]) + products[skus[|skus| - 1]].price
  }

  /** The total of a concatenation is the sum of the totals. */
  lemma {:induction false} TotalAppend(products: map<string, Product>, a: seq<string>, b: seq<string>)
    requires forall j :: 0 <= j < |a| ==> a[j] in products
    requires forall j :: 0 <= j < |b| ==> b[j] in products
    ensures forall j :: 0 <= j < |a + b| ==> (a + b)[j] in products
    ensures Total(products, a + b) == Total(products, a) + Total(products, b)
  {
    assert forall j :: 0 <= j < |a + b| ==> (a + b)[j] in products by {
      forall j | 0 <= j < |a + b| ensures (a + b)[j] in products {
        if j < |a| { assert (a + b)[j] == a[j]; } else { assert (a + b)[j] == b[j - |a|]; }
      }
    }
    if b != [] {
      var b' := b[..|b| - 1];
      assert (a + b)[..|a + b| - 1] == a + b';
      TotalAppend(products, a, b');
    } else {
      assert a + b == a;
    }
  }

  /**
    The price loop: the total of all SKUs, or the first SKU the catalogue does not
    have. The second case is what makes IssueInvoice answer "not found".
   */
  function Pricing(products: map<string, Product>, skus: seq<string>): (r: Result<nat, string>)
    ensures r.Ok? <==> forall j :: 0 <= j < |skus| ==> skus[j] in products
    ensures r.Ok? ==> r.value == Total(products, skus)
    ensures r.Err? ==> exists k :: 0 <= k < |skus| && skus[k] == r.error && skus[k] !in products
                                   && forall j :: 0 <= j < k ==> skus[j] in products
  {
    var k := FirstMissing(products, skus);
    if k < |skus| then Err(skus[k]) else Ok(Total(products, skus))
  }

  /** The loop that accumulates the invoice total, stopping at the first unknown SKU. */
  method SumPrices(products: map<string, Product>, skus: seq<string>) returns (r: Result<nat, string>)
    ensures r == Pricing(products, skus)
  {
    var total: nat := 0;
    var i := 0;
    while i < |skus|
      invariant 0 <= i <= |skus|
      invariant forall j :: 0 <= j < i ==> skus[j] in products
      invariant total == Total(products, skus[..i])
    {
      var sku := skus[i];
      if sku !in products {
        return Err(sku);
      }
      assert skus[..i + 1][..i] == skus[..i];
      total := total + products[sku].price;
      i := i + 1;
    }
    assert skus[..i] == skus;
    return Ok(total);
  }

  /**
    The discount amount in cents. The source computes `total * percent / 100`
    rounded to two decimals; since `total` is a whole number of units, that amount
    is exactly `total * percent` hundredths and the rounding changes nothing.
   */
  function DiscountCents(total: nat, percent: int): (cents: int)
    ensures 0 <= percent ==> 0 <= cents
    ensures percent <= MaxDiscountPercent ==> cents <= MaxDiscountPercent * total
  {
    total * percent
  }

  // ---------------------------------------------------------------------------
  // Customer queries

  /** The elements of `s` that `keep` accepts, in their original order. */
  function Filter<T(!new)>(s: seq<T>, keep: T -> bool): (r: seq<T>)
    ensures |r| <= |s|
    ensures forall x :: x in r <==> x in s && keep(x)
  {
    if s == [] then []
    else (if keep(s[0]) then [s[0]] else []) + Filter(s[1..], keep)
  }

  /** Filtering distributes over concatenation, so relative order is kept. */
  lemma {:induction false} FilterAppend<T(!new)>(a: seq<T>, b: seq<T>, keep: T -> bool)
    ensures Filter(a + b, keep) == Filter(a, keep) + Filter(b, keep)
  {
    if a != [] {
      assert (a + b)[1..] == a[1..] + b;
      FilterAppend(a[1..], b, keep);
    } else {
      assert a + b == b;
    }
  }

  /** GetCustomerData: everything stored under exactly this address, in stored order. */
  function Query(db: Db, addr: string): (r: CustomerData)
    ensures forall x :: x in r.rules <==> x in db.rules && x.email == addr
    ensures forall e :: e in r.invoices <==> e in db.invoices && e.1.email == addr
    ensures forall m :: m in r.emails <==> m in db.emails && m.to == addr
  {
    CustomerData(
      Filter(db.rules, (x: Rule) => x.email == addr),
      Filter(db.invoices, (e: (string, Invoice)) => e.1.email == addr),
      Filter(db.emails, (m: EmailRecord) => m.to == addr))
  }

  // ---------------------------------------------------------------------------
  // The dispatcher on store values

  /**
    IssueInvoice: only the invoices may change; an unknown SKU yields a string
    and no change, otherwise the returned invoice is the one now stored under its id.
   */
  function Issue(db: Db, email: string, skus: seq<string>, percent: int): (r: (Db, Reply))
    ensures r.0.rules == db.rules && r.0.emails == db.emails && r.0.products == db.products
    ensures r.1.Text? || r.1.InvoiceRecord?
    ensures r.1.Text? <==> Pricing(db.products, skus).Err?
    ensures r.1.Text? ==> r.0 == db
    ensures r.1.InvoiceRecord? ==> Get(r.0.invoices, r.1.invoice.id) == Some(r.1.invoice)
  {
    match Pricing(db.products, skus)
    case Err(sku) => (db, Text("Product " + sku + " not found"))
    case Ok(total) =>
      var id := InvoiceId(|db.invoices| + 1);
      var invoice := Invoice(id, email, InvoiceFile(id), skus, DiscountCents(total, percent), percent, total, false);
      (db.(invoices := Put(db.invoices, id, invoice)), InvoiceRecord(invoice))
  }

  /**
    CancelInvoice: an unknown id yields a string and no change; a known one has
    its stored record voided in place, and that record is returned.
   */
  function Cancel(db: Db, id: string): (r: (Db, Reply))
    ensures r.0.rules == db.rules && r.0.emails == db.emails && r.0.products == db.products
    ensures r.1.Text? <==> Get(db.invoices, id).None?
    ensures r.1.Text? ==> r.0 == db
    ensures r.1.InvoiceRecord? ==>
              && r.1.invoice == Get(db.invoices, id).value.(void := true)
              && Get(r.0.invoices, id) == Some(r.1.invoice)
              && |r.0.invoices| == |db.invoices|
  {
    match Get(db.invoices, id)
    case None => (db, Text("Invoice " + id + " not found"))
    case Some(invoice) =>
      var voided := invoice.(void := true);
      (db.(invoices := Put(db.invoices, id, voided)), InvoiceRecord(voided))
  }

  /** `dispatch`: one case per action; a completion report matches none and yields nothing. */
  function Apply(db: Db, a: Action): (r: (Db, Reply))
    ensures r.0.products == db.products
    ensures db.rules <= r.0.rules && db.emails <= r.0.emails
    ensures r.1.NoReply? <==> a.ReportTaskCompletion?
    ensures r.1.Text? ==> r.0 == db
    // SendEmail files the message, without its attachments, as the last email
    ensures a.SendEmail? ==>
              var sent := EmailRecord(a.recipientEmail, a.subject, a.message);
              r == (db.(emails := db.emails + [sent]), EmailSent(sent))
    // CreateRule remembers the rule as the last one
    ensures a.CreateRule? ==>
              var saved := Rule(a.email, a.rule);
              r == (db.(rules := db.rules + [saved]), RuleSaved(saved))
    // GetCustomerData is a read: the store is left as it was
    ensures a.GetCustomerData? ==> r == (db, Customer(Query(db, a.email)))
    ensures a.IssueInvoice? ==> r == Issue(db, a.email, a.skus, a.discountPercent)
    ensures a.CancelInvoice? ==> r == Cancel(db, a.invoiceId)
    ensures a.ReportTaskCompletion? ==> r == (db, NoReply)
  {
    match a
    case SendEmail(subject, message, _, to) =>
      var email := EmailRecord(to, subject, message);
      (db.(emails := db.emails + [email]), EmailSent(email))
    case CreateRule(email, rule) =>
      var r := Rule(email, rule);
      (db.(rules := db.rules + [r]), RuleSaved(r))
    case GetCustomerData(addr) => (db, Customer(Query(db, addr)))
    case IssueInvoice(email, skus, percent) => Issue(db, email, skus, percent)
    case CancelInvoice(id, _) => Cancel(db, id)
    case ReportTaskCompletion(_, _) => (db, NoReply)
  }

  /**
    How a store may change: the catalogue is fixed, rules and emails only grow at
    the end, invoices keep their position and id, no field but `void` ever changes,
    and a void invoice stays void.
   */
  predicate Evolves(before: Db, after: Db) {
    && after.products == before.products
    && before.rules <= after.rules
    && before.emails <= after.emails
    && |before.invoices| <= |after.invoices|
    && forall k :: 0 <= k < |before.invoices| ==>
         && after.invoices[k].0 == before.invoices[k].0
         && after.invoices[k].1 == before.invoices[k].1.(void := after.invoices[k].1.void)
         && (before.invoices[k].1.void ==> after.invoices[k].1.void)
  }

  /** A store that has not changed has evolved trivially. */
  lemma EvolvesReflexive(db: Db)
    ensures Evolves(db, db)
  {
    assert forall k :: 0 <= k < |db.invoices| ==> db.invoices[k].1 == db.invoices[k].1.(void := db.invoices[k].1.void);
  }

  /** Two allowed changes in a row make an allowed change. */
  lemma EvolvesTransitive(a: Db, b: Db, c: Db)
    requires Evolves(a, b) && Evolves(b, c)
    ensures Evolves(a, c)
  {
    assert forall k :: 0 <= k < |a.invoices| ==> c.invoices[k].1 == a.invoices[k].1.(void := c.invoices[k].1.void) by {
      forall k | 0 <= k < |a.invoices|
        ensures c.invoices[k].1 == a.invoices[k].1.(void := c.invoices[k].1.void)
      {
        assert b.invoices[k].1 == a.invoices[k].1.(void := b.invoices[k].1.void);
      }
    }
  }

  /** Issuing with an unknown SKU names the first one and stores nothing. */
  lemma IssueUnknownSku(db: Db, email: string, skus: seq<string>, percent: int, k: nat)
    requires k < |skus| && skus[k] !in db.products
    requires forall j :: 0 <= j < k ==> skus[j] in db.products
    ensures Apply(db, IssueInvoice(email, skus, percent)) == (db, Text("Product " + skus[k] + " not found"))
  {
    var r := Pricing(db.products, skus);
    var k' :| 0 <= k' < |skus| && skus[k'] == r.error && skus[k'] !in db.products
              && forall j :: 0 <= j < k' ==> skus[j] in db.products;
    assert k' == k;
  }

  /**
    A successful issue appends INV-(n+1) at the end of the table (it never
    overwrites), with the list-price total, the discount in cents, void unset and
    the request's email, SKUs and percentage copied; nothing else changes.
   */
  lemma IssueAppendsInvoice(db: Db, email: string, skus: seq<string>, percent: int)
    requires WellKeyed(db.invoices)
    requires forall j :: 0 <= j < |skus| ==> skus[j] in db.products
    ensures var id := InvoiceId(|db.invoices| + 1);
            var total := Total(db.products, skus);
            var invoice := Invoice(id, email, "/invoices" + id + ".pdf", skus, total * percent, percent, total, false);
            Apply(db, IssueInvoice(email, skus, percent))
              == (db.(invoices := db.invoices + [(id, invoice)]), InvoiceRecord(invoice))
    ensures WellKeyed(Apply(db, IssueInvoice(email, skus, percent)).0.invoices)
  {
    IssueStores(db, email, skus, percent);
    var id := InvoiceId(|db.invoices| + 1);
    var total := Total(db.products, skus);
    var invoice := Invoice(id, email, InvoiceFile(id), skus, DiscountCents(total, percent), percent, total, false);
    AppendKeepsWellKeyed(db.invoices, invoice);
  }

  /** A fully priced IssueInvoice appends the new record under the next id. */
  lemma IssueStores(db: Db, email: string, skus: seq<string>, percent: int)
    requires WellKeyed(db.invoices)
    requires forall j :: 0 <= j < |skus| ==> skus[j] in db.products
    ensures var id := InvoiceId(|db.invoices| + 1);
            var total := Total(db.products, skus);
            var invoice := Invoice(id, email, InvoiceFile(id), skus, DiscountCents(total, percent), percent, total, false);
            Issue(db, email, skus, percent) == (db.(invoices := db.invoices + [(id, invoice)]), InvoiceRecord(invoice))
  {
    NextIdIsFresh(db.invoices);
    var id := InvoiceId(|db.invoices| + 1);
    var total := Total(db.products, skus);
    var invoice := Invoice(id, email, InvoiceFile(id), skus, total * percent, percent, total, false);
    assert Pricing(db.products, skus) == Ok(total);
    PutAbsent(db.invoices, id, invoice);
  }

  /** Cancelling INV-k sets that invoice's void flag and touches nothing else. */
  lemma CancelKnown(db: Db, k: nat, reason: string)
    requires WellKeyed(db.invoices)
    requires 1 <= k <= |db.invoices|
    ensures var voided := db.invoices[k - 1].1.(void := true);
            Apply(db, CancelInvoice(InvoiceId(k), reason))
              == (db.(invoices := db.invoices[k - 1 := (InvoiceId(k), voided)]), InvoiceRecord(voided))
  {
    InvoiceKeys(db.invoices, k);
  }

  /** Cancelling an id the table lacks reports it and changes nothing. */
  lemma CancelUnknown(db: Db, id: string, reason: string)
    requires WellKeyed(db.invoices)
    requires forall k :: 1 <= k <= |db.invoices| ==> id != InvoiceId(k)
    ensures Apply(db, CancelInvoice(id, reason)) == (db, Text("Invoice " + id + " not found"))
  {
    assert forall k :: 0 <= k < |db.invoices| ==> db.invoices[k].0 != id by {
      forall k | 0 <= k < |db.invoices| ensures db.invoices[k].0 != id {
        assert db.invoices[k].0 == InvoiceId(k + 1);
      }
    }
  }

  /** Every action keeps the table well keyed, and the store only evolves. */
  lemma ApplyEvolves(db: Db, a: Action)
    requires WellKeyed(db.invoices)
    ensures WellKeyed(Apply(db, a).0.invoices)
    ensures Evolves(db, Apply(db, a).0)
  {
    match a
    case IssueInvoice(email, skus, percent) => IssueEvolves(db, email, skus, percent);
    case CancelInvoice(id, reason) => CancelEvolves(db, id);
    case _ =>
      assert Apply(db, a).0.invoices == db.invoices;
      EvolvesReflexive(db);
  }

  /** IssueInvoice keeps the table well keyed and only evolves the store. */
  lemma IssueEvolves(db: Db, email: string, skus: seq<string>, percent: int)
    requires WellKeyed(db.invoices)
    ensures WellKeyed(Issue(db, email, skus, percent).0.invoices)
    ensures Evolves(db, Issue(db, email, skus, percent).0)
  {
    if Pricing(db.products, skus).Ok? {
      IssueAppendsInvoice(db, email, skus, percent);
    } else {
      EvolvesReflexive(db);
    }
  }

  /** CancelInvoice keeps the table well keyed and only evolves the store. */
  lemma CancelEvolves(db: Db, id: string)
    requires WellKeyed(db.invoices)
    ensures WellKeyed(Cancel(db, id).0.invoices)
    ensures Evolves(db, Cancel(db, id).0)
  {
    var d := db.invoices;
    if HasKey(d, id) {
      var i := IndexOf(d, id);
      var voided := d[i].1.(void := true);
      assert Get(d, id) == Some(d[i].1);
      PutPresent(d, id, voided);
      var d' := d[i := (id, voided)];
      assert Cancel(db, id).0 == db.(invoices := d');
      forall k | 0 <= k < |d'|
        ensures d'[k].0 == InvoiceId(k + 1) && d'[k].1.id == d'[k].0 && d'[k].1.file == InvoiceFile(d'[k].0)
        ensures d'[k].1 == d[k].1.(void := d'[k].1.void)
        ensures d[k].1.void ==> d'[k].1.void
      {
        if k == i {
          assert d[i].0 == id;
        }
      }
    } else {
      assert Cancel(db, id).0 == db;
      EvolvesReflexive(db);
    }
  }



  /** A "not found" message is the only string reply, and it leaves the store as it was. */
  lemma FailureChangesNothing(db: Db, a: Action)
    ensures Apply(db, a).1.Text? ==> Apply(db, a).0 == db
    ensures Apply(db, a).1.Text? ==> a.IssueInvoice? || a.CancelInvoice?
  {
  }

  /** Every catalogue action except the completion report has a dispatch case. */
  lemma DispatchExhaustive(db: Db, a: Action)
    ensures Apply(db, a).1 == NoReply <==> a.ReportTaskCompletion?
  {
  }

  /** The worked example: SKU-205 and SKU-210 at 10% give 1548 and a 154.80 discount. */
  lemma CatalogExample(db: Db, email: string)
    requires db.products == Catalog && WellKeyed(db.invoices)
    ensures var r := Apply(db, IssueInvoice(email, ["SKU-205", "SKU-210"], 10)).1;
            r.InvoiceRecord? && r.invoice.total == 1548 && r.invoice.discountCents == 15480
  {
    var skus := ["SKU-205", "SKU-210"];
    assert skus[..1] == ["SKU-205"];
    assert Total(Catalog, skus) == 1548;
  }

  // ---------------------------------------------------------------------------
  // The store object

  /** The process-wide store: three mutable collections and a fixed catalogue. */
  class RecordStore {
    var rules: seq<Rule>
    var invoices: Dict<string, Invoice>
    var emails: seq<EmailRecord>
    const products: map<string, Product>

    function Snapshot(): Db
      reads this
    {
      Db(rules, invoices, emails, products)
    }

    constructor (products: map<string, Product>)
      ensures Snapshot() == Db([], [], [], products)
    {
      this.rules := [];
      this.invoices := [];
      this.emails := [];
      this.products := products;
    }

    /** Appends one email record (attachments dropped) and returns it. */
    method SendEmail(subject: string, message: string, files: seq<string>, recipient: string)
      returns (email: EmailRecord)
      modifies this
      ensures email == EmailRecord(recipient, subject, message)
      ensures emails == old(emails) + [email]
      ensures rules == old(rules) && invoices == old(invoices)
    {
      email := EmailRecord(recipient, subject, message);
      emails := emails + [email];
    }

    /** Appends one rule and returns it. */
    method CreateRule(email: string, rule: string) returns (r: Rule)
      modifies this
      ensures r == Rule(email, rule)
      ensures rules == old(rules) + [r]
      ensures emails == old(emails) && invoices == old(invoices)
    {
      r := Rule(email, rule);
      rules := rules + [r];
    }

    method IssueInvoice(email: string, skus: seq<string>, percent: int) returns (r: Reply)
      modifies this
      ensures (Snapshot(), r) == Issue(old(Snapshot()), email, skus, percent)
    {
      var priced := SumPrices(products, skus);
      if priced.Err? {
        return Text("Product " + priced.error + " not found");
      }
      var total := priced.value;
      var discount := DiscountCents(total, percent);
      var id := InvoiceId(|invoices| + 1);
      var invoice := Invoice(id, email, InvoiceFile(id), skus, discount, percent, total, false);
      invoices := Put(invoices, id, invoice);
      r := InvoiceRecord(invoice);
    }

    method CancelInvoice(id: string, reason: string) returns (r: Reply)
      modifies this
      ensures (Snapshot(), r) == Cancel(old(Snapshot()), id)
    {
      var found := Get(invoices, id);
      if found.None? {
        return Text("Invoice " + id + " not found");
      }
      var voided := found.value.(void := true);
      invoices := Put(invoices, id, voided);
      r := InvoiceRecord(voided);
    }

    /** `dispatch` against this store. */
    method Dispatch(cmd: Action) returns (r: Reply)
      modifies this
      ensures (Snapshot(), r) == Apply(old(Snapshot()), cmd)
    {
      match cmd
      case SendEmail(subject, message, files, to) =>
        var email := SendEmail(subject, message, files, to);
        r := EmailSent(email);
      case CreateRule(email, rule) =>
        var saved := CreateRule(email, rule);
        r := RuleSaved(saved);
      case GetCustomerData(addr) =>
        r := Customer(Query(Snapshot(), addr));
      case IssueInvoice(email, skus, percent) =>
        r := IssueInvoice(email, skus, percent);
      case CancelInvoice(id, reason) =>
        r := CancelInvoice(id, reason);
      case ReportTaskCompletion(_, _) =>
        r := NoReply;
    }
  }
}
