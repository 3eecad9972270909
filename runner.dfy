/**
  The task runner: for each task a fresh conversation log, at most twenty
  oracle decisions, each non-terminal one logged as an assistant tool call,
  dispatched against the shared store and answered by a tool entry.
 */
module Runner {
  import opened Wrappers
  import opened OrderedDict
  import opened Actions
  import opened Store
  import Decimal

  /** The step budget per task. */
  const MaxSteps: nat := 20

  /** A tool result: a string reply verbatim, anything else as its JSON text. */
  datatype ToolContent = Verbatim(text: string) | Serialized(reply: Reply)

  datatype Message =
    | SystemMessage(content: string)
    | UserMessage(content: string)
    | AssistantCall(callId: string, tool: string, arguments: Action)
    | ToolResult(result: ToolContent, toolCallId: string)

  /** How one task ends. A decode failure also ends the whole batch. */
  datatype TaskOutcome =
    | Reported(code: Code, completedSteps: seq<string>)
    | BudgetExhausted
    | DecodeFailed

  /**
    The decision oracle: given how many calls were made before and the log it
    is shown, what it answers. Any answering behaviour is such a function.
   */
  type Oracle = (nat, seq<Message>) -> RawReply

  /** `f"step_{i}"`: the prefix, then the decimal digits of i, which read back as i. */
  function StepId(i: nat): (id: string)
    ensures |id| > 5 && id[..5] == "step_"
    ensures forall j :: 5 <= j < |id| ==> Decimal.IsDigit(id[j])
    ensures Decimal.Value(id[5..]) == i
  {
    var id := "step_" + Decimal.Format(i);
    assert id[5..] == Decimal.Format(i);
    Decimal.ValueOfFormat(i);
    id
  }

  lemma StepIdInjective(m: nat, n: nat)
    requires StepId(m) == StepId(n)
    ensures m == n
  {
    assert StepId(m)[5..] == Decimal.Format(m);
    assert StepId(n)[5..] == Decimal.Format(n);
    Decimal.FormatInjective(m, n);
  }

  /** The content of a tool entry: a string reply as it is, any other reply serialised. */
  function Logged(r: Reply): (c: ToolContent)
    ensures c.Verbatim? <==> r.Text?
    ensures r.Text? ==> c == Verbatim(r.text)
    ensures !r.Text? ==> c == Serialized(r)
  {
    if r.Text? then Verbatim(r.text) else Serialized(r)
  }

  /** The actions of the assistant tool calls in a log, in order. */
  function CallsIn(log: seq<Message>): seq<Action> {
    if log == [] then []
    else
      var last := log[|log| - 1];
      CallsIn(log[..|log| - 1]) + if last.AssistantCall? then [last.arguments] else []
  }

  /** The store after dispatching `acts` in order. */
  function ApplyAll(db: Db, acts: seq<Action>): Db {
    if acts == [] then db else Apply(ApplyAll(db, acts[..|acts| - 1]), acts[|acts| - 1]).0
  }

  /** Dispatching one more action applies it to the store the earlier ones left. */
  lemma ApplyAllSnoc(db: Db, acts: seq<Action>, a: Action)
    ensures ApplyAll(db, acts + [a]) == Apply(ApplyAll(db, acts), a).0
  {
    assert (acts + [a])[..|acts|] == acts;
  }

  /** What the k-th of `acts` returned when dispatched after the ones before it. */
  function ReplyAt(db: Db, acts: seq<Action>, k: nat): Reply
    requires k < |acts|
  {
    Apply(ApplyAll(db, acts[..k]), acts[k]).1
  }

  lemma {:induction false} ApplyAllEvolves(db: Db, acts: seq<Action>)
    requires WellKeyed(db.invoices)
    ensures WellKeyed(ApplyAll(db, acts).invoices)
    ensures Evolves(db, ApplyAll(db, acts))
  {
    if acts == [] {
      EvolvesReflexive(db);
    } else {
      var prefix := acts[..|acts| - 1];
      ApplyAllEvolves(db, prefix);
      ApplyEvolves(ApplyAll(db, prefix), acts[|acts| - 1]);
      EvolvesTransitive(db, ApplyAll(db, prefix), ApplyAll(db, acts));
    }
  }

  /** Every stored invoice has a discount of at most 50 percent. */
  predicate DiscountsBounded(invoices: Dict<string, Invoice>) {
    forall k :: 0 <= k < |invoices| ==> invoices[k].1.discountPercent <= MaxDiscountPercent
  }

  lemma ApplyKeepsDiscountsBounded(db: Db, a: Action)
    requires ValidAction(a) && DiscountsBounded(db.invoices)
    ensures DiscountsBounded(Apply(db, a).0.invoices)
  {
    match a
    case CancelInvoice(id, _) =>
      if HasKey(db.invoices, id) {
        assert db.invoices[IndexOf(db.invoices, id)].1.discountPercent <= MaxDiscountPercent;
      }
    case _ =>
  }

  /** Dispatching only decoded actions never stores a discount above the ceiling. */
  lemma {:induction false} ApplyAllKeepsDiscountsBounded(db: Db, acts: seq<Action>)
    requires forall j :: 0 <= j < |acts| ==> ValidAction(acts[j])
    requires DiscountsBounded(db.invoices)
    ensures DiscountsBounded(ApplyAll(db, acts).invoices)
  {
    if acts != [] {
      var prefix := acts[..|acts| - 1];
      ApplyAllKeepsDiscountsBounded(db, prefix);
      ApplyKeepsDiscountsBounded(ApplyAll(db, prefix), acts[|acts| - 1]);
    }
  }

  /** The two entries of step k: the decision's call with id step_(k+1), then its result. */
  predicate StepLogged(oracle: Oracle, calls0: nat, db0: Db, log: seq<Message>, planned: seq<string>, k: nat)
    requires 3 + 2 * k < |log| && k < |planned|
  {
    var decision := Decode(oracle(calls0 + k, log[..2 + 2 * k]));
    && decision.Some?
    && var a := decision.value.action;
    && !a.ReportTaskCompletion?
    && log[2 + 2 * k] == AssistantCall(StepId(k + 1), Tool(a), a)
    && planned[k] == decision.value.planRemainingStepsBrief[0]
    && k < |CallsIn(log)|
    && log[3 + 2 * k] == ToolResult(Logged(ReplyAt(db0, CallsIn(log), k)), StepId(k + 1))
  }

  /** Appending one step's two entries adds its action to the calls of the log. */
  lemma CallsInStep(log: seq<Message>, call: Message, result: Message)
    requires call.AssistantCall? && result.ToolResult?
    ensures CallsIn(log + [call, result]) == CallsIn(log) + [call.arguments]
  {
    assert (log + [call, result])[..|log| + 1] == log + [call];
    assert (log + [call])[..|log|] == log;
  }

  /** Growing the action list leaves the replies to earlier actions as they were. */
  lemma ReplyAtExtend(db: Db, acts: seq<Action>, a: Action, k: nat)
    requires k < |acts|
    ensures ReplyAt(db, acts + [a], k) == ReplyAt(db, acts, k)
  {
    assert (acts + [a])[..k] == acts[..k];
  }

  /** A logged step stays logged when later entries are appended. */
  lemma StepLoggedExtend(oracle: Oracle, calls0: nat, db0: Db, log: seq<Message>, planned: seq<string>,
                         k: nat, call: Message, entry: Message, plan: string)
    requires 3 + 2 * k < |log| && k < |planned|
    requires StepLogged(oracle, calls0, db0, log, planned, k)
    requires call.AssistantCall? && entry.ToolResult?
    ensures StepLogged(oracle, calls0, db0, log + [call, entry], planned + [plan], k)
  {
    var log' := log + [call, entry];
    CallsInStep(log, call, entry);
    assert log'[..2 + 2 * k] == log[..2 + 2 * k];
    ReplyAtExtend(db0, CallsIn(log), call.arguments, k);
  }

  /** The entries appended for step i (0-based) are what StepLogged asks for. */
  lemma NewStepLogged(oracle: Oracle, calls0: nat, db0: Db, log: seq<Message>, planned: seq<string>,
                      job: NextStep, reply: Reply)
    requires |log| == 2 + 2 * |planned| && |CallsIn(log)| == |planned|
    requires Decode(oracle(calls0 + |planned|, log)) == Some(job)
    requires !job.action.ReportTaskCompletion?
    requires reply == Apply(ApplyAll(db0, CallsIn(log)), job.action).1
    ensures var i := |planned|;
            var call := AssistantCall(StepId(i + 1), Tool(job.action), job.action);
            var entry := ToolResult(Logged(reply), StepId(i + 1));
            StepLogged(oracle, calls0, db0, log + [call, entry], planned + [job.planRemainingStepsBrief[0]], i)
  {
    var i := |planned|;
    var call := AssistantCall(StepId(i + 1), Tool(job.action), job.action);
    var entry := ToolResult(Logged(reply), StepId(i + 1));
    var log' := log + [call, entry];
    CallsInStep(log, call, entry);
    assert log'[..2 + 2 * i] == log;
    assert (CallsIn(log) + [job.action])[..i] == CallsIn(log);
  }

  /**
    What holds of a task's log after its first |planned| steps: the two opening
    entries, then two entries per step, every dispatched action valid, and the
    store equal to the opening store with those actions applied in order.
   */
  predicate LogSoFar(oracle: Oracle, calls0: nat, db0: Db, prompt: string, task: string,
                     log: seq<Message>, planned: seq<string>, db: Db)
  {
    && |log| == 2 + 2 * |planned|
    && log[0] == SystemMessage(prompt) && log[1] == UserMessage(task)
    && |CallsIn(log)| == |planned|
    && (forall j :: 0 <= j < |planned| ==> ValidAction(CallsIn(log)[j]))
    && (forall k :: 0 <= k < |planned| ==> StepLogged(oracle, calls0, db0, log, planned, k))
    && db == ApplyAll(db0, CallsIn(log))
  }

  /** Every step logged so far, and the new one, is logged as StepLogged describes in the longer log. */
  lemma StepsLogged(oracle: Oracle, calls0: nat, db0: Db, log: seq<Message>, planned: seq<string>,
                    job: NextStep, reply: Reply)
    requires |log| == 2 + 2 * |planned| && |CallsIn(log)| == |planned|
    requires forall k :: 0 <= k < |planned| ==> StepLogged(oracle, calls0, db0, log, planned, k)
    requires Decode(oracle(calls0 + |planned|, log)) == Some(job)
    requires !job.action.ReportTaskCompletion?
    requires reply == Apply(ApplyAll(db0, CallsIn(log)), job.action).1
    ensures var step := StepId(|planned| + 1);
            var log' := log + [AssistantCall(step, Tool(job.action), job.action), ToolResult(Logged(reply), step)];
            forall k :: 0 <= k <= |planned| ==>
              StepLogged(oracle, calls0, db0, log', planned + [job.planRemainingStepsBrief[0]], k)
  {
    var i := |planned|;
    var step := StepId(i + 1);
    var call := AssistantCall(step, Tool(job.action), job.action);
    var entry := ToolResult(Logged(reply), step);
    var log' := log + [call, entry];
    var planned' := planned + [job.planRemainingStepsBrief[0]];
    forall k | 0 <= k <= i
      ensures StepLogged(oracle, calls0, db0, log', planned', k)
    {
      if k < i {
        StepLoggedExtend(oracle, calls0, db0, log, planned, k, call, entry, job.planRemainingStepsBrief[0]);
      } else {
        NewStepLogged(oracle, calls0, db0, log, planned, job, reply);
      }
    }
  }

  /** Logging one non-terminal step and its reply extends what LogSoFar describes by that step. */
  lemma LogStep(oracle: Oracle, calls0: nat, db0: Db, prompt: string, task: string,
                log: seq<Message>, planned: seq<string>, db: Db, job: NextStep, db': Db, reply: Reply)
    requires LogSoFar(oracle, calls0, db0, prompt, task, log, planned, db)
    requires Decode(oracle(calls0 + |planned|, log)) == Some(job)
    requires !job.action.ReportTaskCompletion?
    requires (db', reply) == Apply(db, job.action)
    ensures var step := StepId(|planned| + 1);
            LogSoFar(oracle, calls0, db0, prompt, task,
                     log + [AssistantCall(step, Tool(job.action), job.action), ToolResult(Logged(reply), step)],
                     planned + [job.planRemainingStepsBrief[0]], db')
  {
    var i := |planned|;
    var step := StepId(i + 1);
    var call := AssistantCall(step, Tool(job.action), job.action);
    var entry := ToolResult(Logged(reply), step);
    StepsLogged(oracle, calls0, db0, log, planned, job, reply);
    CallsInStep(log, call, entry);
    ApplyAllSnoc(db0, CallsIn(log), job.action);
    assert ValidNextStep(job);
    assert forall j :: 0 <= j <= i ==> ValidAction((CallsIn(log) + [job.action])[j]);
  }

  /** One non-terminal step: log the call, dispatch it, log its result. */
  method DispatchStep(store: RecordStore, ghost oracle: Oracle, ghost calls0: nat, ghost db0: Db,
                      ghost prompt: string, ghost task: string,
                      log: seq<Message>, planned: seq<string>, job: NextStep)
    returns (log': seq<Message>, planned': seq<string>)
    requires LogSoFar(oracle, calls0, db0, prompt, task, log, planned, store.Snapshot())
    requires Decode(oracle(calls0 + |planned|, log)) == Some(job)
    requires !job.action.ReportTaskCompletion?
    modifies store
    ensures planned' == planned + [job.planRemainingStepsBrief[0]]
    ensures LogSoFar(oracle, calls0, db0, prompt, task, log', planned', store.Snapshot())
  {
    ghost var before := store.Snapshot();
    var step := StepId(|planned| + 1);
    var call := AssistantCall(step, Tool(job.action), job.action);
    var result := store.Dispatch(job.action);
    LogStep(oracle, calls0, db0, prompt, task, log, planned, before, job, store.Snapshot(), result);
    log' := log + [call, ToolResult(Logged(result), step)];
    planned' := planned + [job.planRemainingStepsBrief[0]];
  }

  /**
    Run one task: a fresh log, then at most MaxSteps decisions. TaskRun says what
    the log, the plan list and the outcome are; the store ends as the opening
    store with the logged actions applied in order.
   */
  method RunTask(store: RecordStore, prompt: string, task: string, oracle: Oracle, calls0: nat)
    returns (outcome: TaskOutcome, log: seq<Message>, planned: seq<string>, calls: nat)
    modifies store
    ensures TaskRun(oracle, prompt, task, calls0, old(store.Snapshot()), outcome, log, planned)
    ensures store.Snapshot() == ApplyAll(old(store.Snapshot()), CallsIn(log))
    ensures calls == calls0 + CallsUsed(outcome, planned) <= calls0 + MaxSteps
  {
    ghost var db0 := store.Snapshot();
    log := [SystemMessage(prompt), UserMessage(task)];
    planned := [];
    calls := calls0;
    assert log[..1] == [SystemMessage(prompt)];
    assert CallsIn(log[..1]) == CallsIn([]) == [];
    assert CallsIn(log) == [];
    var i := 0;
    while i < MaxSteps
      invariant i == |planned| <= MaxSteps
      invariant calls == calls0 + i
      invariant LogSoFar(oracle, calls0, db0, prompt, task, log, planned, store.Snapshot())
    {
      var raw := oracle(calls, log);
      calls := calls + 1;
      var decoded := Decode(raw);
      if decoded.None? {
        return DecodeFailed, log, planned, calls;
      }
      var job := decoded.value;
      if job.action.ReportTaskCompletion? {
        return Reported(job.action.code, job.action.completedStepsLaconic), log, planned, calls;
      }
      log, planned := DispatchStep(store, oracle, calls0, db0, prompt, task, log, planned, job);
      i := i + 1;
    }
    outcome := BudgetExhausted;
  }

  /** Oracle calls a task made: one per dispatched step, plus the deciding call unless the budget ran out. */
  function CallsUsed(outcome: TaskOutcome, planned: seq<string>): nat {
    |planned| + if outcome.BudgetExhausted? then 0 else 1
  }

  /**
    What one task's run establishes, starting at oracle call `start` on store
    `db`: its log and plan as LogSoFar describes them, the store it leaves
    behind, and which decision ended it.
   */
  predicate TaskRun(oracle: Oracle, prompt: string, task: string, start: nat, db: Db,
                    outcome: TaskOutcome, log: seq<Message>, planned: seq<string>)
  {
    && LogSoFar(oracle, start, db, prompt, task, log, planned, ApplyAll(db, CallsIn(log)))
    && |planned| <= MaxSteps
    && (outcome.BudgetExhausted? <==> |planned| == MaxSteps)
    && (outcome.DecodeFailed? ==> Decode(oracle(start + |planned|, log)) == None)
    && (outcome.Reported? ==>
          var decision := Decode(oracle(start + |planned|, log));
          decision.Some? && decision.value.action == ReportTaskCompletion(outcome.completedSteps, outcome.code))
  }

  /** The store after the tasks with these logs ran one after another on `db`. */
  function AfterTasks(db: Db, logs: seq<seq<Message>>): Db {
    if logs == [] then db else ApplyAll(AfterTasks(db, logs[..|logs| - 1]), CallsIn(logs[|logs| - 1]))
  }

  /** Every task's run uses at most the step budget's worth of oracle calls. */
  lemma TaskRunCalls(oracle: Oracle, prompt: string, task: string, start: nat, db: Db,
                     outcome: TaskOutcome, log: seq<Message>, planned: seq<string>)
    requires TaskRun(oracle, prompt, task, start, db, outcome, log, planned)
    ensures CallsUsed(outcome, planned) <= MaxSteps
  {
  }

  /** The runs recorded so far, each from the store the tasks before it left behind. */
  predicate RunsSoFar(oracle: Oracle, prompt: string, tasks: seq<string>, db0: Db,
                      outcomes: seq<TaskOutcome>, logs: seq<seq<Message>>, plans: seq<seq<string>>, starts: seq<nat>)
    requires |outcomes| == |logs| == |plans| == |starts| <= |tasks|
  {
    forall k :: 0 <= k < |outcomes| ==>
      TaskRun(oracle, prompt, tasks[k], starts[k], AfterTasks(db0, logs[..k]), outcomes[k], logs[k], plans[k])
  }

  lemma ExtendRuns(oracle: Oracle, prompt: string, tasks: seq<string>, db0: Db,
                   outcomes: seq<TaskOutcome>, logs: seq<seq<Message>>, plans: seq<seq<string>>, starts: seq<nat>,
                   start: nat, outcome: TaskOutcome, log: seq<Message>, planned: seq<string>)
    requires |outcomes| == |logs| == |plans| == |starts| < |tasks|
    requires RunsSoFar(oracle, prompt, tasks, db0, outcomes, logs, plans, starts)
    requires TaskRun(oracle, prompt, tasks[|outcomes|], start, AfterTasks(db0, logs), outcome, log, planned)
    ensures RunsSoFar(oracle, prompt, tasks, db0, outcomes + [outcome], logs + [log], plans + [planned], starts + [start])
  {
    var n := |outcomes|;
    var logs' := logs + [log];
    forall k | 0 <= k <= n
      ensures TaskRun(oracle, prompt, tasks[k], (starts + [start])[k], AfterTasks(db0, logs'[..k]),
                      (outcomes + [outcome])[k], logs'[k], (plans + [planned])[k])
    {
      if k < n {
        assert logs'[..k] == logs[..k];
        assert TaskRun(oracle, prompt, tasks[k], starts[k], AfterTasks(db0, logs[..k]), outcomes[k], logs[k], plans[k]);
      } else {
        assert logs'[..k] == logs;
      }
    }
  }

  /** The oracle calls of the tasks so far, counted task by task from call 0. */
  predicate CallsSoFar(outcomes: seq<TaskOutcome>, plans: seq<seq<string>>, starts: seq<nat>, calls: nat)
    requires |outcomes| == |plans| == |starts|
  {
    && (forall k :: 0 <= k < |outcomes| ==> CallsUsed(outcomes[k], plans[k]) <= MaxSteps)
    && (|outcomes| > 0 ==> starts[0] == 0)
    && (forall k :: 0 < k < |outcomes| ==> starts[k] == starts[k - 1] + CallsUsed(outcomes[k - 1], plans[k - 1]))
    && calls == (if |outcomes| == 0 then 0 else starts[|outcomes| - 1] + CallsUsed(outcomes[|outcomes| - 1], plans[|outcomes| - 1]))
    && calls <= MaxSteps * |outcomes|
  }

  lemma ExtendCalls(outcomes: seq<TaskOutcome>, plans: seq<seq<string>>, starts: seq<nat>, calls: nat,
                    outcome: TaskOutcome, planned: seq<string>)
    requires |outcomes| == |plans| == |starts|
    requires CallsSoFar(outcomes, plans, starts, calls)
    requires CallsUsed(outcome, planned) <= MaxSteps
    ensures CallsSoFar(outcomes + [outcome], plans + [planned], starts + [calls], calls + CallsUsed(outcome, planned))
  {
    var n := |outcomes|;
    assert forall k :: 0 <= k < n ==> (outcomes + [outcome])[k] == outcomes[k] && (plans + [planned])[k] == plans[k];
    assert forall k :: 0 <= k < n ==> (starts + [calls])[k] == starts[k];
  }

  /**
    What holds after the first |outcomes| tasks of a batch that started on `db0`
    at oracle call 0: no task but possibly the last failed to decode, task k ran
    as TaskRun describes from `starts[k]` on the store the tasks before it left,
    and the calls are counted task by task.
   */
  predicate BatchSoFar(oracle: Oracle, prompt: string, tasks: seq<string>, db0: Db,
                       outcomes: seq<TaskOutcome>, logs: seq<seq<Message>>, plans: seq<seq<string>>,
                       starts: seq<nat>, calls: nat)
  {
    && |outcomes| == |logs| == |plans| == |starts| <= |tasks|
    && (forall k :: 0 <= k < |outcomes| - 1 ==> !outcomes[k].DecodeFailed?)
    && RunsSoFar(oracle, prompt, tasks, db0, outcomes, logs, plans, starts)
    && CallsSoFar(outcomes, plans, starts, calls)
  }

  /** One more task, run from where the batch stands, extends the batch. */
  lemma ExtendBatch(oracle: Oracle, prompt: string, tasks: seq<string>, db0: Db,
                    outcomes: seq<TaskOutcome>, logs: seq<seq<Message>>, plans: seq<seq<string>>, starts: seq<nat>,
                    calls: nat, outcome: TaskOutcome, log: seq<Message>, planned: seq<string>)
    requires BatchSoFar(oracle, prompt, tasks, db0, outcomes, logs, plans, starts, calls)
    requires |outcomes| < |tasks|
    requires |outcomes| > 0 ==> !outcomes[|outcomes| - 1].DecodeFailed?
    requires TaskRun(oracle, prompt, tasks[|outcomes|], calls, AfterTasks(db0, logs), outcome, log, planned)
    ensures BatchSoFar(oracle, prompt, tasks, db0, outcomes + [outcome], logs + [log], plans + [planned],
                       starts + [calls], calls + CallsUsed(outcome, planned))
  {
    TaskRunCalls(oracle, prompt, tasks[|outcomes|], calls, AfterTasks(db0, logs), outcome, log, planned);
    ExtendRuns(oracle, prompt, tasks, db0, outcomes, logs, plans, starts, calls, outcome, log, planned);
    ExtendCalls(outcomes, plans, starts, calls, outcome, planned);
  }

  /** A task's run keeps the store invariants that held before it, relative to the batch's first store. */
  lemma TaskKeepsStore(oracle: Oracle, prompt: string, task: string, start: nat, db0: Db, before: Db,
                       outcome: TaskOutcome, log: seq<Message>, planned: seq<string>)
    requires TaskRun(oracle, prompt, task, start, before, outcome, log, planned)
    requires WellKeyed(db0.invoices) ==> WellKeyed(before.invoices) && Evolves(db0, before)
    requires DiscountsBounded(db0.invoices) ==> DiscountsBounded(before.invoices)
    ensures var after := ApplyAll(before, CallsIn(log));
            && (WellKeyed(db0.invoices) ==> WellKeyed(after.invoices) && Evolves(db0, after))
            && (DiscountsBounded(db0.invoices) ==> DiscountsBounded(after.invoices))
  {
    var after := ApplyAll(before, CallsIn(log));
    if WellKeyed(db0.invoices) {
      ApplyAllEvolves(before, CallsIn(log));
      EvolvesTransitive(db0, before, after);
    }
    if DiscountsBounded(db0.invoices) {
      ApplyAllKeepsDiscountsBounded(before, CallsIn(log));
    }
  }

  /** A task that dispatched anything began with a decision that was not a completion report. */
  lemma FirstDecision(oracle: Oracle, prompt: string, task: string, start: nat, db: Db,
                      outcome: TaskOutcome, log: seq<Message>, planned: seq<string>)
    requires TaskRun(oracle, prompt, task, start, db, outcome, log, planned)
    ensures |planned| > 0 ==>
              var first := Decode(oracle(start, [SystemMessage(prompt), UserMessage(task)]));
              first.Some? && !first.value.action.ReportTaskCompletion?
  {
    if |planned| > 0 {
      assert log[..2] == [SystemMessage(prompt), UserMessage(task)];
      assert StepLogged(oracle, start, db, log, planned, 0);
    }
  }

  /**
    A task whose first decision is a completion report dispatches nothing: it
    ends Reported with that report, its log is the two opening entries, and the
    store is left as it was.
   */
  lemma ReportFirst(oracle: Oracle, prompt: string, task: string, start: nat, db: Db,
                    outcome: TaskOutcome, log: seq<Message>, planned: seq<string>)
    requires TaskRun(oracle, prompt, task, start, db, outcome, log, planned)
    requires Decode(oracle(start, [SystemMessage(prompt), UserMessage(task)])).Some?
    requires Decode(oracle(start, [SystemMessage(prompt), UserMessage(task)])).value.action.ReportTaskCompletion?
    ensures planned == [] && log == [SystemMessage(prompt), UserMessage(task)]
    ensures var report := Decode(oracle(start, log)).value.action;
            outcome == Reported(report.code, report.completedStepsLaconic)
    ensures ApplyAll(db, CallsIn(log)) == db
  {
    FirstDecision(oracle, prompt, task, start, db, outcome, log, planned);
    assert log == [SystemMessage(prompt), UserMessage(task)];
  }

  /** The store invariants a batch keeps, relative to the store it started on. */
  predicate KeepsInvariants(db0: Db, db: Db) {
    && (WellKeyed(db0.invoices) ==> WellKeyed(db.invoices) && Evolves(db0, db))
    && (DiscountsBounded(db0.invoices) ==> DiscountsBounded(db.invoices))
  }

  /** Run the next task of the batch and record its run. */
  method RunNextTask(store: RecordStore, prompt: string, tasks: seq<string>, oracle: Oracle, ghost db0: Db,
                     outcomes: seq<TaskOutcome>, logs: seq<seq<Message>>, plans: seq<seq<string>>,
                     starts: seq<nat>, calls: nat)
    returns (outcome: TaskOutcome, log: seq<Message>, planned: seq<string>, calls': nat)
    requires BatchSoFar(oracle, prompt, tasks, db0, outcomes, logs, plans, starts, calls)
    requires |outcomes| < |tasks|
    requires |outcomes| > 0 ==> !outcomes[|outcomes| - 1].DecodeFailed?
    requires store.Snapshot() == AfterTasks(db0, logs)
    requires KeepsInvariants(db0, store.Snapshot())
    modifies store
    ensures calls' == calls + CallsUsed(outcome, planned)
    ensures BatchSoFar(oracle, prompt, tasks, db0, outcomes + [outcome], logs + [log], plans + [planned],
                       starts + [calls], calls')
    ensures store.Snapshot() == AfterTasks(db0, logs + [log])
    ensures KeepsInvariants(db0, store.Snapshot())
  {
    ghost var before := store.Snapshot();
    outcome, log, planned, calls' := RunTask(store, prompt, tasks[|outcomes|], oracle, calls);
    TaskKeepsStore(oracle, prompt, tasks[|outcomes|], calls, db0, before, outcome, log, planned);
    ExtendBatch(oracle, prompt, tasks, db0, outcomes, logs, plans, starts, calls, outcome, log, planned);
    assert (logs + [log])[..|logs|] == logs;
  }

  /**
    Run the tasks one after another against one store. Task t starts with a
    fresh log, at oracle call `starts[t]`, on the store the tasks before it left
    behind. A decode failure stops the batch.
   */
  method ExecuteTasks(store: RecordStore, prompt: string, tasks: seq<string>, oracle: Oracle)
    returns (outcomes: seq<TaskOutcome>, logs: seq<seq<Message>>, plans: seq<seq<string>>,
             starts: seq<nat>, calls: nat)
    modifies store
    ensures BatchSoFar(oracle, prompt, tasks, old(store.Snapshot()), outcomes, logs, plans, starts, calls)
    ensures |outcomes| < |tasks| ==> |outcomes| > 0 && outcomes[|outcomes| - 1].DecodeFailed?
    ensures store.Snapshot() == AfterTasks(old(store.Snapshot()), logs)
    ensures WellKeyed(old(store.Snapshot()).invoices) ==>
              WellKeyed(store.Snapshot().invoices) && Evolves(old(store.Snapshot()), store.Snapshot())
    ensures DiscountsBounded(old(store.Snapshot()).invoices) ==> DiscountsBounded(store.Snapshot().invoices)
  {
    ghost var db0 := store.Snapshot();
    outcomes, logs, plans, starts := [], [], [], [];
    calls := 0;
    EvolvesReflexive(db0);
    var stopped := false;
    while |outcomes| < |tasks| && !stopped
      invariant BatchSoFar(oracle, prompt, tasks, db0, outcomes, logs, plans, starts, calls)
      invariant |outcomes| > 0 ==> (stopped <==> outcomes[|outcomes| - 1].DecodeFailed?)
      invariant |outcomes| == 0 ==> !stopped
      invariant store.Snapshot() == AfterTasks(db0, logs)
      invariant KeepsInvariants(db0, store.Snapshot())
      decreases |tasks| - |outcomes|
    {
      var outcome, log, planned, calls' := RunNextTask(store, prompt, tasks, oracle, db0, outcomes, logs, plans, starts, calls);
      outcomes, logs, plans, starts := outcomes + [outcome], logs + [log], plans + [planned], starts + [calls];
      calls := calls';
      stopped := outcome.DecodeFailed?;
    }
  }
}
