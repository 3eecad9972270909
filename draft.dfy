/**
  The earlier draft of the dispatcher. It shares every branch with `Store.Apply`
  except IssueInvoice, whose discount line reads the local `discount` before it
  is assigned: once every SKU is found the call raises instead of issuing.
 */
module DraftDemo {
  import opened Wrappers
  import opened Actions
  import opened Store

  /** The draft either returns a reply or raises. */
  datatype DraftReply = Returned(reply: Reply) | Raised(error: string)

  /** The error the discount line raises: a local read before assignment. */
  const UnboundDiscount: string := "UnboundLocalError: discount"

  /** The draft `dispatch`, as written. */
  function DraftApply(db: Db, a: Action): (r: (Db, DraftReply))
    ensures r.1.Raised? ==> a.IssueInvoice? && r.0 == db
    ensures |r.0.invoices| == |db.invoices|
    // every branch but IssueInvoice answers exactly as the vanilla dispatcher
    ensures !a.IssueInvoice? ==> r == (Apply(db, a).0, Returned(Apply(db, a).1))
    // IssueInvoice answers as vanilla when a SKU is unknown, and raises otherwise
    ensures a.IssueInvoice? && Pricing(db.products, a.skus).Err? ==>
              r == (db, Returned(Apply(db, a).1))
    ensures a.IssueInvoice? && Pricing(db.products, a.skus).Ok? ==> r == (db, Raised(UnboundDiscount))
  {
    if a.IssueInvoice? then
      match Pricing(db.products, a.skus)
      case Err(sku) => (db, Returned(Text("Product " + sku + " not found")))
      case Ok(_) => (db, Raised(UnboundDiscount))
    else
      var (db', r) := Apply(db, a);
      (db', Returned(r))
  }

  /** The draft never adds an invoice, whatever it is asked to do. */
  lemma DraftNeverAddsInvoice(db: Db, a: Action)
    ensures |DraftApply(db, a).0.invoices| == |db.invoices|
    ensures forall k :: 0 <= k < |db.invoices| ==> DraftApply(db, a).0.invoices[k].0 == db.invoices[k].0
  {
  }

  /**
    Whenever every SKU is known, including an empty list, the draft raises where
    the corrected dispatcher issues an invoice, and the store stays as it was.
   */
  lemma DraftIssueRaises(db: Db, email: string, skus: seq<string>, percent: int)
    requires forall j :: 0 <= j < |skus| ==> skus[j] in db.products
    ensures DraftApply(db, IssueInvoice(email, skus, percent)) == (db, Raised(UnboundDiscount))
    ensures Apply(db, IssueInvoice(email, skus, percent)).1.InvoiceRecord?
  {
  }

  /** The smallest witness: an empty SKU list at 0% raises in the draft. */
  lemma DraftEmptyInvoiceRaises(db: Db, email: string)
    ensures DraftApply(db, IssueInvoice(email, [], 0)).1 == Raised(UnboundDiscount)
    ensures Apply(db, IssueInvoice(email, [], 0)).1.InvoiceRecord?
  {
    DraftIssueRaises(db, email, [], 0);
  }

  /** On an unknown SKU the draft answers exactly as the corrected dispatcher does. */
  lemma DraftUnknownSkuAgrees(db: Db, email: string, skus: seq<string>, percent: int)
    requires exists j :: 0 <= j < |skus| && skus[j] !in db.products
    ensures DraftApply(db, IssueInvoice(email, skus, percent))
              == (db, Returned(Apply(db, IssueInvoice(email, skus, percent)).1))
  {
  }

  /** The draft `dispatch` run against a store object. */
  method DraftDispatch(store: RecordStore, cmd: Action) returns (r: DraftReply)
    modifies store
    ensures (store.Snapshot(), r) == DraftApply(old(store.Snapshot()), cmd)
  {
    if cmd.IssueInvoice? {
      var priced := SumPrices(store.products, cmd.skus);
      if priced.Err? {
        return Returned(Text("Product " + priced.error + " not found"));
      }
      return Raised(UnboundDiscount);
    }
    var reply := store.Dispatch(cmd);
    r := Returned(reply);
  }
}
