/**
  The action catalogue an agent step may choose from, and the decode-time
  validation that a structured reply must pass before anything is dispatched.
 */
module Actions {
  import opened Wrappers

  /** The outcome a terminal report declares. */
  datatype Code = Completed | Failed

  /** One tool call. Every variant carries its own payload; `Tool` gives its tag. */
  datatype Action =
    | SendEmail(subject: string, message: string, files: seq<string>, recipientEmail: string)
    | GetCustomerData(email: string)
    | IssueInvoice(email: string, skus: seq<string>, discountPercent: int)
    | CancelInvoice(invoiceId: string, reason: string)
    | CreateRule(email: string, rule: string)
    | ReportTaskCompletion(completedStepsLaconic: seq<string>, code: Code)

  /** The literal `tool` discriminator each variant is decoded with. */
  function Tool(a: Action): string {
    match a
    case SendEmail(_, _, _, _) => "send_email"
    case GetCustomerData(_) => "get_customer_data"
    case IssueInvoice(_, _, _) => "issue_invoice"
    case CancelInvoice(_, _) => "cancel_invoice"
    case CreateRule(_, _) => "remember"
    case ReportTaskCompletion(_, _) => "report_completion"
  }

  /** Different variants never share a tag, so the tag alone selects the variant. */
  lemma ToolTagsDistinct(a: Action, b: Action)
    requires Tool(a) == Tool(b)
    ensures a.SendEmail? == b.SendEmail? && a.GetCustomerData? == b.GetCustomerData?
    ensures a.IssueInvoice? == b.IssueInvoice? && a.CancelInvoice? == b.CancelInvoice?
    ensures a.CreateRule? == b.CreateRule? && a.ReportTaskCompletion? == b.ReportTaskCompletion?
  {
    assert Tool(a)[0] == Tool(b)[0] && Tool(a)[1] == Tool(b)[1];
  }

  /** The largest discount an invoice request may carry; there is no lower bound. */
  const MaxDiscountPercent: int := 50

  /** Field constraints of the catalogue: only the discount ceiling. */
  predicate ValidAction(a: Action) {
    a.IssueInvoice? ==> a.discountPercent <= MaxDiscountPercent
  }

  /** One structured decision of the oracle. */
  datatype NextStep = NextStep(
    currentTask: string,
    planRemainingStepsBrief: seq<string>,
    taskCompleted: bool,
    // the `function` field of the decision
    action: Action)

  const MinPlanSteps: nat := 1
  const MaxPlanSteps: nat := 5

  predicate ValidNextStep(n: NextStep) {
    && MinPlanSteps <= |n.planRemainingStepsBrief| <= MaxPlanSteps
    && ValidAction(n.action)
  }

  /**
    What comes back from the oracle: text that is not JSON of the decision's
    shape, or a decision of the right shape whose field constraints are not yet checked.
   */
  datatype RawReply = Unparsable | Parsed(step: NextStep)

  /** Parsing and validation: a decision is accepted only when every constraint holds. */
  function Decode(raw: RawReply): (r: Option<NextStep>)
    ensures r.Some? ==> raw.Parsed? && r.value == raw.step
    ensures r.Some? ==> |r.value.planRemainingStepsBrief| > 0
    // accepted exactly when the reply parsed, the plan has one to five entries
    // and an invoice request stays within the discount ceiling
    ensures r.Some? <==>
              && raw.Parsed?
              && MinPlanSteps <= |raw.step.planRemainingStepsBrief| <= MaxPlanSteps
              && (raw.step.action.IssueInvoice? ==> raw.step.action.discountPercent <= MaxDiscountPercent)
  {
    if raw.Parsed? && ValidNextStep(raw.step) then Some(raw.step) else None
  }

  /** The discount ceiling is inclusive: 50 passes, 51 does not, and negative values pass. */
  lemma DiscountCeiling(n: NextStep, email: string, skus: seq<string>, pct: int)
    requires 1 <= |n.planRemainingStepsBrief| <= 5
    requires n.action == IssueInvoice(email, skus, pct)
    ensures Decode(Parsed(n)).Some? <==> pct <= 50
    ensures pct == 50 ==> Decode(Parsed(n)).Some?
    ensures pct == 51 ==> Decode(Parsed(n)) == None
    ensures pct < 0 ==> Decode(Parsed(n)).Some?
  {
  }

  /** An empty SKU list is not a decode error. */
  lemma EmptySkusAccepted(n: NextStep, email: string, pct: int)
    requires 1 <= |n.planRemainingStepsBrief| <= 5
    requires n.action == IssueInvoice(email, [], pct) && pct <= 50
    ensures Decode(Parsed(n)) == Some(n)
  {
  }

  /** The plan must have one to five entries, whatever the action. */
  lemma PlanLength(n: NextStep)
    requires ValidAction(n.action)
    ensures Decode(Parsed(n)).Some? <==> 1 <= |n.planRemainingStepsBrief| <= 5
  {
  }
}
