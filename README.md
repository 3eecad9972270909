# Schema-guided reasoning agent: a verified Dafny model

This project models the core of a small "schema-guided reasoning" agent. An
oracle (a language model with structured output) is asked for one decision at a
time. Each decision names one tool call from a closed catalogue. The runner
dispatches the call against an in-memory business store (rules, invoices, emails,
and a read-only product catalogue) and writes the call and its result into the
conversation log. The task ends when the oracle reports completion or after
twenty decisions.

Modules:

- `Wrappers` (wrappers.dfy): `Option` and `Result`.
- `Decimal` (decimal.dfy): decimal text of a natural number, as an f-string
  renders an `int`, with its inverse. Used for `INV-n` and `step_n`.
- `OrderedDict` (ordered_dict.dfy): a Python dictionary as an insertion-ordered
  list of entries, with `get` and item assignment.
- `Actions` (actions.dfy): the tool-call catalogue, the `NextStep` decision and
  decode-time validation (discount at most 50, plan of one to five entries).
- `Store` (store.dfy): records, the store as a value (`Db`), the dispatcher on
  values (`Apply`), and the class `RecordStore`. Its methods update the rules,
  invoices and emails fields in place and are proved to agree with `Apply`.
- `DraftDemo` (draft.dfy): the earlier draft of the dispatcher in
  `schema_demo.py`, whose IssueInvoice branch raises (see Findings).
- `Runner` (runner.dfy): the per-task step loop and the batch loop over tasks.
  The store is shared across tasks; each task gets a fresh log.
- `StrictSchema` (strict_schema.dfy): the transform that adds
  `"additionalProperties": false` to every `"type": "object"` schema lacking it
  (JSON Schema Core 2020-12, section 10.3.2.3), and the strict response-format
  wrapper around it.

`models.py` is a byte-for-byte copy of `common/models.py`, so `StrictSchema`
models both; rows below cite either file.

The model follows the code as written; in particular:

- IssueInvoice has no lower bound on `discount_percent` and accepts an empty SKU list.
- A decision that fails to parse or validate raises. That ends the whole batch,
  not just the task. A validation failure is not fed back to the oracle.
- Running out of the twenty steps just moves on to the next task. The model reports
  this as `BudgetExhausted`.
- The invoice file path is `"/invoices" + id + ".pdf"`, with no separator
  (`/invoicesINV-1.pdf`).
- The stored `total` is the list-price sum. The discount amount is separate
  information and is not subtracted.

## Model

| member | source | states |
|---|---|---|
| `Actions.ToolTagsDistinct` | vanilla_sgr/schema_demo.py:32-69 | the literal `tool` tags of the catalogue variants are pairwise different, so a tag picks out exactly one variant |
| `Actions.Decode` | vanilla_sgr/schema_demo.py:238-240 | a reply is accepted exactly when it parsed, its plan has one to five entries and an invoice request's discount is at most 50; the accepted decision is the parsed one, unchanged, so the plan's element 0 exists |
| `Actions.DiscountCeiling` | vanilla_sgr/schema_demo.py:53 | an IssueInvoice decision is accepted if and only if its discount is at most 50: 50 passes, 51 is rejected, and negative values pass (no lower bound) |
| `Actions.EmptySkusAccepted` | vanilla_sgr/schema_demo.py:52 | an IssueInvoice with an empty SKU list is not a decode error |
| `Actions.PlanLength` | vanilla_sgr/schema_demo.py:178 | a decision with a valid action is accepted if and only if its plan has one to five entries |
| `Decimal.Format` | vanilla_sgr/schema_demo.py:121 | the f-string text of a natural number: at least one digit, all decimal digits, no leading zero unless the number is 0 |
| `Decimal.ValueOfFormat` | vanilla_sgr/schema_demo.py:121 | reading back the decimal text of n gives n |
| `Decimal.FormatInjective` | vanilla_sgr/schema_demo.py:121 | different numbers have different decimal texts |
| `OrderedDict.Get` | vanilla_sgr/schema_demo.py:138 | `dict.get` finds a value exactly when some entry has the key, and the value found is the one stored in the first entry with that key |
| `OrderedDict.Put` | vanilla_sgr/schema_demo.py:134 | item assignment maps the key to the new value and leaves every other key's value alone; an existing key keeps its position and the size, a new key becomes the last entry |
| `Store.InvoiceId` | vanilla_sgr/schema_demo.py:121 | `INV-` followed by decimal digits that read back as the number |
| `Store.InvoiceIdInjective` | vanilla_sgr/schema_demo.py:121 | `INV-m` equals `INV-n` only when m = n |
| `Store.InvoiceKeys` | vanilla_sgr/schema_demo.py:121-134 | in a well-keyed table the keys are exactly INV-1 to INV-n, and INV-k sits at position k-1 |
| `Store.AppendKeepsWellKeyed` | vanilla_sgr/schema_demo.py:121-134 | appending the record INV-(n+1), carrying that id and its file path, to a well-keyed table of n keeps it well keyed |
| `Store.NextIdIsFresh` | vanilla_sgr/schema_demo.py:121-134 | the next id, INV-(count+1), is never an existing key, even after cancellations, so the insert never overwrites |
| `Store.FirstMissing` | vanilla_sgr/schema_demo.py:113-116 | gives the position of the first SKU missing from the catalogue: every SKU before it is known |
| `Store.TotalAppend` | vanilla_sgr/schema_demo.py:113-117 | the price sum of a concatenation is the sum of the two price sums, with every duplicate counted |
| `Store.Pricing` | vanilla_sgr/schema_demo.py:112-117 | the price loop succeeds if and only if every SKU is in the catalogue, and then gives the price sum; otherwise it names the first unknown SKU |
| `Store.SumPrices` | vanilla_sgr/schema_demo.py:112-117 | the accumulating loop returns exactly what `Pricing` specifies |
| `Store.Filter` | vanilla_sgr/schema_demo.py:104-106 | a comprehension keeps exactly the elements that satisfy its condition |
| `Store.FilterAppend` | vanilla_sgr/schema_demo.py:104-106 | filtering distributes over concatenation, so stored order is preserved |
| `Store.Query` | vanilla_sgr/schema_demo.py:101-107 | GetCustomerData returns exactly the rules, (id, invoice) pairs and emails whose address equals the query, by exact string equality |
| `Store.IssueUnknownSku` | vanilla_sgr/schema_demo.py:113-116 | with an unknown SKU, IssueInvoice answers `Product <sku> not found` for the first unknown SKU and the store is unchanged |
| `Store.DiscountCents` | vanilla_sgr/schema_demo.py:119 | the discount in cents is never negative for a non-negative percent, and at most half the total (50 × total cents) when the percent is within the 50 ceiling |
| `Store.Issue` | vanilla_sgr/schema_demo.py:111-135 | IssueInvoice on store values: only the invoices can change; a string reply comes exactly when pricing fails and then nothing changes; otherwise the invoice returned is the one now stored under its id |
| `Store.IssueAppendsInvoice` | vanilla_sgr/schema_demo.py:119-135 | a successful IssueInvoice appends INV-(n+1) at the end. Its file is `/invoices` + id + `.pdf`, its total is the price sum, its discount is total × percent cents, void is false, and email, SKUs and percent are copied. Nothing else changes and the table stays well keyed |
| `Store.CancelKnown` | vanilla_sgr/schema_demo.py:137-142 | cancelling INV-k sets only that invoice's void flag and returns the updated invoice |
| `Store.Cancel` | vanilla_sgr/schema_demo.py:137-142 | CancelInvoice on store values: a string reply comes exactly when the id is not a key, and then nothing changes; otherwise the stored record, with void set, is both stored under the id and returned, and the table keeps its size |
| `Store.CancelUnknown` | vanilla_sgr/schema_demo.py:137-140 | cancelling an id not in the table answers `Invoice <id> not found` and changes nothing |
| `Store.EvolvesTransitive` | vanilla_sgr/schema_demo.py:79-142 | two successive allowed store changes make an allowed store change |
| `Store.ApplyEvolves` | vanilla_sgr/schema_demo.py:79-142 | every dispatch keeps the table well keyed. The catalogue is fixed, and rules and emails only grow at the end. Invoices keep their position and fields except `void`, and a void invoice stays void |
| `Store.FailureChangesNothing` | vanilla_sgr/schema_demo.py:113-140 | a string reply comes only from IssueInvoice or CancelInvoice, and then the store is unchanged |
| `Store.Apply` | vanilla_sgr/schema_demo.py:79-142 | `dispatch` on store values: SendEmail appends the email without its files and returns it, CreateRule appends the rule and returns it, GetCustomerData returns the query and leaves the store unchanged, IssueInvoice and CancelInvoice behave as `Issue` and `Cancel`, and the completion report yields nothing with no change; the catalogue is fixed, rules and emails only grow, and a string reply leaves the store unchanged |
| `Store.IssueEvolves` | vanilla_sgr/schema_demo.py:111-135 | IssueInvoice keeps the invoice table well keyed and only evolves the store |
| `Store.CancelEvolves` | vanilla_sgr/schema_demo.py:137-142 | CancelInvoice keeps the invoice table well keyed and only evolves the store |
| `Store.DispatchExhaustive` | vanilla_sgr/schema_demo.py:79-142 | dispatch returns nothing exactly for the completion report; every other action has a case |
| `Store.CatalogExample` | vanilla_sgr/schema_demo.py:22-26 | on the seeded catalogue, SKU-205 and SKU-210 at 10% give total 1548 and a discount of 15480 cents |
| `Store.RecordStore.constructor` | vanilla_sgr/schema_demo.py:18-27 | a new store has no rules, invoices or emails and the given catalogue |
| `Store.RecordStore.SendEmail` | vanilla_sgr/schema_demo.py:83-87 | appends one `{to, subject, message}` record, with files dropped, and returns it; rules and invoices are unchanged |
| `Store.RecordStore.CreateRule` | vanilla_sgr/schema_demo.py:94-97 | appends one `{email, rule}` record and returns it; emails and invoices are unchanged |
| `Store.RecordStore.IssueInvoice` | vanilla_sgr/schema_demo.py:111-135 | the new store and the reply are those of the value-level issue |
| `Store.RecordStore.CancelInvoice` | vanilla_sgr/schema_demo.py:137-142 | the new store and the reply are those of the value-level cancel |
| `Store.RecordStore.Dispatch` | vanilla_sgr/schema_demo.py:79-142 | the new store and the reply are those of `Apply` on the old store |
| `DraftDemo.DraftNeverAddsInvoice` | schema_demo.py:107-122 | the draft dispatcher never changes the number of invoices or their ids |
| `DraftDemo.DraftIssueRaises` | schema_demo.py:99-107 | when every SKU is known, including an empty list, the draft raises at the discount line and stores nothing, while the corrected dispatcher issues an invoice |
| `DraftDemo.DraftEmptyInvoiceRaises` | schema_demo.py:107 | the witness: IssueInvoice with no SKUs at 0% raises in the draft and yields an invoice in the corrected dispatcher |
| `DraftDemo.DraftUnknownSkuAgrees` | schema_demo.py:101-104 | with an unknown SKU the draft answers exactly as the corrected dispatcher does |
| `DraftDemo.DraftApply` | schema_demo.py:65-130 | the draft `dispatch` on store values: for every action but IssueInvoice (SendEmail 68-76, CreateRule 81-87, GetCustomerData 90-96, CancelInvoice 125-130) the new store and reply equal those of `Store.Apply`; IssueInvoice with an unknown SKU answers as `Store.Apply` does, and with every SKU known it raises and leaves the store as it was; it never changes the number of invoices |
| `DraftDemo.DraftDispatch` | schema_demo.py:65-130 | dispatch on a store object matches the draft's value-level dispatcher `DraftApply` |
| `Runner.StepIdInjective` | vanilla_sgr/schema_demo.py:227 | step ids `step_m` and `step_n` differ when m and n differ |
| `Runner.StepId` | vanilla_sgr/schema_demo.py:227 | `step_` followed by decimal digits that read back as the step number |
| `Runner.Logged` | vanilla_sgr/schema_demo.py:266 | a string reply is logged as that very string; any other reply is logged as its serialisation |
| `Runner.ApplyAllEvolves` | vanilla_sgr/schema_demo.py:219-268 | any sequence of dispatches keeps the invoice table well keyed and only evolves the store |
| `Runner.ApplyKeepsDiscountsBounded` | vanilla_sgr/schema_demo.py:111-142 | dispatching a decoded action keeps every stored discount at most 50 percent |
| `Runner.ApplyAllKeepsDiscountsBounded` | vanilla_sgr/schema_demo.py:240-265 | dispatching only decoded actions, in any number, never stores a discount above 50 percent |
| `Runner.DispatchStep` | vanilla_sgr/schema_demo.py:250-268 | one non-terminal step appends an assistant call and then a tool result, both with id `step_(i+1)`; the result is the dispatch reply of the decided action |
| `Runner.RunTask` | vanilla_sgr/schema_demo.py:223-268 | the run is a `TaskRun`: the log starts `[system, user]` and has 2 + 2k entries for k dispatched steps, at most 42. Step i is decision i decoded from the log so far, a non-terminal action, logged as call `step_(i+1)` and then its reply. The outcome is the decision that ended the task: a completion report, a decode failure, or budget exhaustion exactly after 20 steps. The store ends as the opening store with the logged actions applied in order, after at most 20 oracle calls |
| `Runner.LogStep` | vanilla_sgr/schema_demo.py:250-268 | logging one dispatched step and its reply extends the log invariant by exactly that step, with the store advanced by that dispatch |
| `Runner.FirstDecision` | vanilla_sgr/schema_demo.py:242-248 | a task that dispatched anything began with a decision that was not a completion report |
| `Runner.ReportFirst` | vanilla_sgr/schema_demo.py:242-248 | a task whose first decision is a completion report ends `Reported` with that report's code and steps, its log is the two opening entries, and the store is unchanged |
| `Runner.ExtendBatch` | vanilla_sgr/schema_demo.py:219-223 | running one more task from where the batch stands, from the next oracle call, extends the batch invariant |
| `Runner.TaskKeepsStore` | vanilla_sgr/schema_demo.py:219-265 | a task's run keeps the invoice table well keyed, the store evolving and discounts bounded, relative to the batch's first store |
| `Runner.RunNextTask` | vanilla_sgr/schema_demo.py:219-268 | runs the next task on the current store and records its outcome, log, plan list and first oracle call, extending the batch invariant |
| `Runner.ExecuteTasks` | vanilla_sgr/schema_demo.py:214-268 | `BatchSoFar`: outcome t is the `TaskRun` of task t with a fresh log, from oracle call `starts[t]`, on the store tasks 0..t-1 left. Calls start at 0 and each task uses at most 20. A decode failure stops the batch and is always the last outcome; otherwise every task runs. The final store is `AfterTasks` of all logs. The invoice table stays well keyed, the store only evolves, and discounts stay within the ceiling |
| `StrictSchema.KeyIndexAppend` | common/models.py:42 | a key in the front part of a member list is found there; otherwise it is found in the rest |
| `StrictSchema.SameKeysSameIndex` | common/models.py:44-46 | two member lists with the same keys in the same order find every key at the same place |
| `StrictSchema.Strict` | common/models.py:40-50 | the transform on a value: objects stay objects and gain at most one member, anything else is returned unchanged |
| `StrictSchema.StrictMembers` | common/models.py:44-46 | the walk over a dictionary keeps every key in place and descends into each value |
| `StrictSchema.StrictItems` | common/models.py:47-50 | the walk over a list transforms dictionary items and leaves every other item, nested lists included, as it is |
| `StrictSchema.DescendKeepsKind` | common/models.py:44-50 | a value keeps its kind, and scalars are not changed |
| `StrictSchema.StrictObject` | common/models.py:41-50 | no key is removed or reordered. At most one key is added: "additionalProperties", last, and only when "type" is the string "object" and the key is absent. It then maps to false. Non-object dictionaries, including list-valued or missing "type", gain nothing |
| `StrictSchema.StrictKeepsKeysUnique` | models.py:42-43 | the transform never creates a duplicate key |
| `StrictSchema.StrictTypeUnchanged` | common/models.py:42 | the result's "type" is the string "object" exactly when the input's was |
| `StrictSchema.StrictKeepsAdditionalProperties` | common/models.py:42 | an existing "additionalProperties" is never overwritten: a scalar stays as it was, and a dictionary or list is only descended into |
| `StrictSchema.StrictCloses` | common/models.py:41-50 | after the transform, every dictionary reached through dictionary values or dictionary items of lists that has "type": "object" has "additionalProperties" |
| `StrictSchema.DescendCloses` | models.py:44-50 | the same coverage for a member value, whether a dictionary or a list of dictionaries |
| `StrictSchema.StrictIdempotent` | common/models.py:42-43 | applying the transform twice gives the same tree as applying it once |
| `StrictSchema.DescendIdempotent` | models.py:42-50 | idempotence for member values |
| `StrictSchema.EnsureNoAdditionalProperties` | common/models.py:40-52 | the walk with its loops computes exactly the transform |
| `StrictSchema.DescendMember` | models.py:44-50 | one member of the walk computes the transformed value |
| `StrictSchema.DescendItems` | models.py:47-50 | the inner loop over a list computes the transformed list |
| `StrictSchema.Lower` | common/models.py:56 | lower-casing keeps the length, leaves no upper-case ASCII letter, and changes only upper-case letters, each to its lower-case form |
| `StrictSchema.ResponseFormat` | common/models.py:54-57 | the wrapper has "type": "json_schema". It carries "strict": true, the lower-cased class name as "name", and the transformed schema, which covers every object, as "schema" |

## Left out

- The oracle: the provider classes, their network calls and the client set-up
  (`common/models.py`, `models.py`). The oracle is a parameter of the runner: a
  function from the number of earlier calls and the current log to either
  unparsable text or a parsed decision.
- `create_model_provider` and `get_model_name`: these read environment
  configuration and contain no logic of the core.
- JSON parsing and pydantic validation internals. Field types and `tool` literals
  are enforced by the Dafny datatypes. `Actions.Decode` checks the two field
  constraints: the discount ceiling and the plan length.
- JSON serialisation: a non-string reply is logged as `Serialized(reply)`, and an
  assistant call carries the action value instead of its JSON text.
- Floating point: prices are integers, so the total is an integer number of
  units and the discount an integer number of cents. Float rounding of
  `round(..., 2)` is not modelled.
- Printing, panels, the system prompt text and the demo task strings. The prompt
  and the tasks are parameters. The plan's first entry, which is only printed,
  is returned as `planned`.
- Aliasing: dispatch returns the stored dictionaries themselves, and
  GetCustomerData returns lists that hold them. The model returns copies. Each
  result is serialised straight away, so nothing observable differs.
- The strict-schema transform on a value: the source mutates dictionaries in
  place. A sub-dictionary shared by two parents would be visited twice. Because
  the transform is idempotent, the outcome is the same as on the tree model.
- JSON numbers are modelled as integers. `str.lower()` is modelled on ASCII
  letters only.
- `StrictSchema.Json`: object members are a list, and lookup takes the first
  member with a key. Uniqueness of keys is a separate predicate,
  `UniqueKeys`, which the transform preserves.
- The draft `schema_demo.py` keeps its own global store. The model runs its
  dispatcher against the same `RecordStore` class. Its placeholder `NextStep`,
  `TEST_TASKS` and `SYSTEM_PROMPT` are not part of this model.
- The `reason` of CancelInvoice and the decision's `current_task` and
  `task_completed` fields are carried but never used, as in the source.

## Findings

| source | as written | input that shows it | evidently intended | confidence | as-written member | corrected member |
|---|---|---|---|---|---|---|
| schema_demo.py:107 | the discount line reads the local `discount` before it is assigned, so IssueInvoice raises once every SKU is found and never reaches the insert at line 122 | IssueInvoice with `skus = []` and `discount_percent = 0` | `round(total * cmd.discount_percent / 100, 2)`, as in vanilla_sgr/schema_demo.py:119, followed by the insert | high; not executed | `DraftDemo.DraftEmptyInvoiceRaises` | `Store.IssueAppendsInvoice` |
