/**
 What each node leaves for its caller, of the answer it was given alone: the answer of a
 turn, the reason it ended, what a tool call recorded, and what a compression replaced.
 */
module AgentAnswers {
  import opened Outcomes
  import opened AgentState
  import opened AgentTail
  import opened AgentNodes
  import opened AgentRuns
  import opened AgentTheorems
  import opened AgentStepLimit
  import Citations
  import SourceList

  // ---- what a stream says ---------------------------------------------------------

  /** The text of the deltas, one after the other. */
  function Deltas(events: seq<GatewayEvent>): string {
    if events == [] then ""
    else (if events[0].TextDelta? then events[0].text else "") + Deltas(events[1..])
  }

  function Turns(events: seq<GatewayEvent>): seq<ModelTurn> {
    if events == [] then []
    else (if events[0].TurnCompleted? then [events[0].turn] else []) + Turns(events[1..])
  }

  function Retries(events: seq<GatewayEvent>): nat {
    if events == [] then 0 else (if events[0].ProviderRetrying? then 1 else 0) + Retries(events[1..])
  }

  /** The last failure reported. */
  function LastFailure(events: seq<GatewayEvent>): Option<ModelErrorCode> {
    if events == [] then None
    else
      var later := LastFailure(events[1..]);
      if later.Some? then later else if events[0].TurnFailed? then Some(events[0].code) else None
  }

  /** The k-th event is a retry that one of the budgets has nothing left for. */
  predicate RetryRefused(budget: TurnBudget, calls: nat, retries: nat, events: seq<GatewayEvent>, k: nat)
    requires k < |events|
  {
    && events[k].ProviderRetrying?
    && (calls + Retries(events[..k]) >= budget.modelCalls || retries + Retries(events[..k]) >= budget.providerRetries)
  }

  /** Events are read up to the first refused retry. */
  predicate ReadUpTo(budget: TurnBudget, calls: nat, retries: nat, events: seq<GatewayEvent>, k: nat) {
    && k <= |events|
    && (forall j | 0 <= j < k :: !RetryRefused(budget, calls, retries, events, j))
    && (k < |events| ==> RetryRefused(budget, calls, retries, events, k))
  }

  predicate Reads(start: Stream, budget: TurnBudget, events: seq<GatewayEvent>, k: nat, stream: Stream)
    requires k <= |events|
  {
    var read := events[..k];
    var failure := LastFailure(read);
    && stream.modelCalls == start.modelCalls + Retries(read)
    && stream.providerRetries == start.providerRetries + Retries(read)
    && stream.observedRetries == start.observedRetries + Retries(read)
    && stream.text == start.text + Deltas(read)
    && stream.completed == start.completed + Turns(read)
    && stream.failure == (if failure.Some? then failure else start.failure)
    && stream.blocked
       == if k == |events| then None
          else if stream.modelCalls >= budget.modelCalls then Some(ModelBudgetExhausted)
          else Some(ProviderRetryBudgetExhausted)
  }

  lemma {:induction false} StreamIsRead(start: Stream, budget: TurnBudget, events: seq<GatewayEvent>)
    returns (k: nat)
    requires start.blocked.None?
    ensures ReadUpTo(budget, start.modelCalls, start.providerRetries, events, k)
    ensures Reads(start, budget, events, k, ReadEvents(start, budget, events))
    decreases |events|
  {
    if events == [] {
      k := 0;
    } else if RetryRefused(budget, start.modelCalls, start.providerRetries, events, 0) {
      k := 0;
      var read := ReadEvent(start, budget, events[0]);
      assert ReadEvents(read, budget, events[1..]) == read;
    } else {
      var next := ReadEvent(start, budget, events[0]);
      var rest := StreamIsRead(next, budget, events[1..]);
      k := rest + 1;
      ReadOneMore(start, budget, events, rest, next, ReadEvents(start, budget, events));
    }
  }

  lemma ReadOneMore(
    start: Stream, budget: TurnBudget, events: seq<GatewayEvent>, rest: nat, next: Stream, stream: Stream)
    requires events != [] && start.blocked.None?
    requires !RetryRefused(budget, start.modelCalls, start.providerRetries, events, 0)
    requires next == ReadEvent(start, budget, events[0])
    requires ReadUpTo(budget, next.modelCalls, next.providerRetries, events[1..], rest)
    requires Reads(next, budget, events[1..], rest, stream)
    ensures ReadUpTo(budget, start.modelCalls, start.providerRetries, events, rest + 1)
    ensures Reads(start, budget, events, rest + 1, stream)
  {
    var read := events[..rest + 1];
    assert read[1..] == events[1..][..rest];
    FirstCounts(start, budget, events, next);
    forall j | 0 <= j < |events| - 1
      ensures RetryRefused(budget, start.modelCalls, start.providerRetries, events, j + 1)
              <==> RetryRefused(budget, next.modelCalls, next.providerRetries, events[1..], j)
    {
      RetriesAfterFirst(events, j + 1);
    }
    hide RetryRefused, Retries, Deltas, Turns, LastFailure, ReadEvent;
    forall j | 0 <= j < rest + 1
      ensures !RetryRefused(budget, start.modelCalls, start.providerRetries, events, j)
    {
      if j > 0 {
        assert !RetryRefused(budget, next.modelCalls, next.providerRetries, events[1..], j - 1);
      }
    }
    ReadFirst(start, budget, events, rest, next, stream);
  }

  lemma RetriesAfterFirst(events: seq<GatewayEvent>, j: nat)
    requires 1 <= j <= |events|
    ensures Retries(events[..j]) == (if events[0].ProviderRetrying? then 1 else 0) + Retries(events[1..][..j - 1])
  {
    assert events[..j][1..] == events[1..][..j - 1];
  }

  lemma FirstCounts(start: Stream, budget: TurnBudget, events: seq<GatewayEvent>, next: Stream)
    requires events != [] && next == ReadEvent(start, budget, events[0])
    requires !RetryRefused(budget, start.modelCalls, start.providerRetries, events, 0)
    ensures next.modelCalls == start.modelCalls + (if events[0].ProviderRetrying? then 1 else 0)
    ensures next.providerRetries == start.providerRetries + (if events[0].ProviderRetrying? then 1 else 0)
  {
  }

  lemma ReadFirst(
    start: Stream, budget: TurnBudget, events: seq<GatewayEvent>, rest: nat, next: Stream, stream: Stream)
    requires events != [] && rest < |events|
    requires !RetryRefused(budget, start.modelCalls, start.providerRetries, events, 0)
    requires next == ReadEvent(start, budget, events[0])
    requires Reads(next, budget, events[1..], rest, stream)
    ensures Reads(start, budget, events, rest + 1, stream)
  {
    var read := events[..rest + 1];
    assert read[1..] == events[1..][..rest] && read[0] == events[0];
    assert Retries(events[..0]) == 0;
  }

  // ---- call_model -----------------------------------------------------------------

  /** The call is the last one that the budget allows. */
  predicate LastCall(state: AgentState, budget: TurnBudget) {
    || state.toolCalls >= budget.toolCalls || state.activeSeconds >= budget.activeSeconds
    || state.modelCalls + 1 == budget.modelCalls
  }

  function LastCallReason(state: AgentState, budget: TurnBudget): Termination {
    if state.toolCalls >= budget.toolCalls then ToolBudgetExhausted
    else if state.activeSeconds >= budget.activeSeconds then ActiveTimeBudgetExhausted
    else BudgetFinalResponse
  }

  function VisibleOr(text: string, earlier: Option<string>): Option<string> {
    if text != "" then Some(text) else earlier
  }

  /** The one turn among the events read, if it counts the retries rightly and its calls may be run. */
  predicate Usable(turns: seq<ModelTurn>, retries: nat, results: seq<ToolResult>) {
    |turns| == 1 && turns[0].retries == retries && DispatchableAndFresh(turns[0].toolCalls, results)
  }

  /** The answer and the reason that a call leaves, when the events up to the k-th were read. */
  predicate CallLeaves(state: AgentState, budget: TurnBudget, answer: Answer, k: nat, after: AgentState)
    requires answer.ModelAnswer? && k <= |answer.events|
  {
    var read := answer.events[..k];
    var text, turns := Deltas(read), Turns(read);
    var failure := if answer.raised.Some? then answer.raised else LastFailure(read);
    && after.modelCalls == state.modelCalls + 1 + Retries(read)
    && after.providerRetries == state.providerRetries + Retries(read)
    && after.activeSeconds == state.activeSeconds + answer.elapsed
    && if k < |answer.events| then
         && after.finalAnswer == VisibleOr(text, state.finalAnswer)
         && after.termination
            == Some(
              if after.modelCalls >= budget.modelCalls then ModelBudgetExhausted else ProviderRetryBudgetExhausted)
       else if failure == Some(ContextLength) then
         && after.finalAnswer == state.finalAnswer && after.termination.None?
         && after.compressionRequested && after.compressionReason == Some(ContextLengthReported)
       else if failure.Some? then
         && after.finalAnswer == VisibleOr(text, state.finalAnswer)
         && after.termination == Some(ModelFailed(failure.value))
       else if !Usable(turns, Retries(read), state.toolResults) then
         && after.finalAnswer == VisibleOr(text, state.finalAnswer)
         && after.termination == Some(ModelFailed(ProviderProtocol))
       else TurnLeaves(state, budget, turns[0], text, after)
  }

  /** What a recorded turn leaves: an answer and a reason unless its calls are still to be run. */
  predicate TurnLeaves(state: AgentState, budget: TurnBudget, turn: ModelTurn, text: string, after: AgentState) {
    var answer := Some(if turn.content != "" then turn.content else text);
    && after.messages == state.messages + [AssistantMessage(turn.content, turn.toolCalls)]
    && if LastCall(state, budget) then
         && after.finalAnswer == answer && after.termination == Some(LastCallReason(state, budget))
         && after.pending == []
       else if turn.toolCalls == [] then
         && after.finalAnswer == answer && after.termination == Some(Stopped(turn.stopReason)) && after.pending == []
       else
         && after.finalAnswer == state.finalAnswer && after.termination == state.termination
         && after.pending == turn.toolCalls && after.nextToolIndex == 0
  }

  /** The model is asked while the budget has a call, and offered tools unless it is the last. */
  function CallAsks(state: AgentState, budget: TurnBudget, answer: Answer): Effect
    requires answer.ModelAnswer?
  {
    if state.modelCalls >= budget.modelCalls then NoEffect
    else ModelRequested(answer.toolsAvailable && !LastCall(state, budget))
  }

  /**
   From every reachable call point, what the call leaves is a function of its events. A
   recorded turn that is the last allowed, or has no tool calls, leaves its content as the
   answer, or the deltas if the content is empty; an exit without a turn leaves the visible
   text if there is any, and the earlier answer otherwise.
   */
  lemma CallAnswers(
    estimator: Message -> nat, budget: TurnBudget, answers: seq<Answer>, answer: Answer) returns (k: nat)
    requires budget.Valid() && AllowedRun(estimator, budget, answers)
    requires PointAfter(estimator, budget, answers).node.CallModel?
    requires answer.ModelAnswer? && answer.elapsed >= 0.0
    ensures var state := PointAfter(estimator, budget, answers).state;
            var after := CallModelNode(estimator, state, budget, answer).0;
            && ReadUpTo(budget, state.modelCalls + 1, state.providerRetries, answer.events, k)
            && CallModelNode(estimator, state, budget, answer).1 == CallAsks(state, budget, answer)
            && if state.modelCalls >= budget.modelCalls then
                 && after.finalAnswer == state.finalAnswer && after.termination == Some(ModelBudgetExhausted)
                 && after.modelCalls == state.modelCalls
               else CallLeaves(state, budget, answer, k, after)
  {
    PendingAtPoint(estimator, budget, answers);
    hide *;
    k := CallReads(estimator, PointAfter(estimator, budget, answers).state, budget, answer);
  }

  /** Before a call every pending tool call has been answered; before a tool, one has not. */
  lemma PendingAtPoint(estimator: Message -> nat, budget: TurnBudget, answers: seq<Answer>)
    requires budget.Valid() && AllowedRun(estimator, budget, answers)
    ensures var point := PointAfter(estimator, budget, answers);
            && (point.node.CallModel? ==> point.state.nextToolIndex >= |point.state.pending|)
            && (point.node.ExecuteOneTool? ==> point.state.nextToolIndex < |point.state.pending|)
  {
    var history := RunKeepsInvariant(estimator, budget, answers);
  }

  lemma CallReads(estimator: Message -> nat, state: AgentState, budget: TurnBudget, answer: Answer) returns (k: nat)
    requires answer.ModelAnswer? && state.nextToolIndex >= |state.pending|
    ensures var after := CallModelNode(estimator, state, budget, answer).0;
            && ReadUpTo(budget, state.modelCalls + 1, state.providerRetries, answer.events, k)
            && CallModelNode(estimator, state, budget, answer).1 == CallAsks(state, budget, answer)
            && if state.modelCalls >= budget.modelCalls then
                 && after.finalAnswer == state.finalAnswer && after.termination == Some(ModelBudgetExhausted)
                 && after.modelCalls == state.modelCalls
               else CallLeaves(state, budget, answer, k, after)
  {
    var cleared := ClearFinishedBatch(state);
    var start := Stream(state.modelCalls + 1, state.providerRetries, 0, "", [], None, None);
    k := StreamIsRead(start, budget, answer.events);
    RequestIsReserved(cleared, budget, answer.toolsAvailable);
    var stream := ReadEvents(start, budget, answer.events);
    var requesting := Requesting(cleared, budget, answer.toolsAvailable);
    StreamIsFresh(start, budget, answer.events, k, stream);
    if state.modelCalls < budget.modelCalls {
      assert StreamFrom(requesting, budget, answer.events) == stream;
      SettledLeaves(
        estimator, state, budget, answer, k, stream, AfterStream(requesting, stream, answer.elapsed));
    }
    hide ReadEvents, SettleCall, CallLeaves, Requesting, CallDecision, ReadUpTo, Reads;
  }

  lemma RequestIsReserved(cleared: AgentState, budget: TurnBudget, toolsAvailable: bool)
    ensures var decision := CallDecision(cleared, budget, toolsAvailable);
            && (decision.allowed <==> cleared.modelCalls < budget.modelCalls)
            && (decision.allowed ==> (decision.reservedFinal <==> LastCall(cleared, budget)))
            && (!decision.allowed ==> decision.termination == Some(ModelBudgetExhausted))
            && (decision.allowed ==> (decision.toolsEnabled <==> toolsAvailable && !LastCall(cleared, budget)))
            && (decision.allowed ==>
                  Requesting(cleared, budget, toolsAvailable)
                  == if LastCall(cleared, budget)
                     then cleared.(termination := Some(LastCallReason(cleared, budget))) else cleared)
  {
  }

  lemma StreamIsFresh(start: Stream, budget: TurnBudget, events: seq<GatewayEvent>, k: nat, stream: Stream)
    requires k <= |events| && Reads(start, budget, events, k, stream)
    requires start.text == "" && start.completed == [] && start.failure.None? && start.observedRetries == 0
    ensures stream.text == Deltas(events[..k]) && stream.completed == Turns(events[..k])
    ensures stream.failure == LastFailure(events[..k]) && stream.observedRetries == Retries(events[..k])
  {
    assert "" + Deltas(events[..k]) == Deltas(events[..k]);
    assert [] + Turns(events[..k]) == Turns(events[..k]);
  }

  lemma SettledLeaves(
    estimator: Message -> nat, state: AgentState, budget: TurnBudget, answer: Answer, k: nat, stream: Stream,
    read: AgentState)
    requires answer.ModelAnswer? && k <= |answer.events| && state.modelCalls < budget.modelCalls
    requires stream.modelCalls == state.modelCalls + 1 + Retries(answer.events[..k])
    requires stream.providerRetries == state.providerRetries + Retries(answer.events[..k])
    requires stream.text == Deltas(answer.events[..k]) && stream.completed == Turns(answer.events[..k])
    requires stream.failure == LastFailure(answer.events[..k])
    requires stream.observedRetries == Retries(answer.events[..k])
    requires stream.blocked
          == if k == |answer.events| then None
             else if stream.modelCalls >= budget.modelCalls then Some(ModelBudgetExhausted)
             else Some(ProviderRetryBudgetExhausted)
    requires read
          == state.(
            pending := [], nextToolIndex := 0,
            termination := if LastCall(state, budget) then Some(LastCallReason(state, budget)) else state.termination,
            modelCalls := stream.modelCalls, providerRetries := stream.providerRetries,
            activeSeconds := state.activeSeconds + answer.elapsed)
    ensures CallLeaves(
      state, budget, answer, k, SettleCall(estimator, read, stream, answer.raised, LastCall(state, budget)))
  {
    hide Deltas, Turns, Retries, LastFailure, DispatchableAndFresh, LastCall, LastCallReason;
  }

  // ---- execute_one_tool -----------------------------------------------------------

  function NotExecuted(code: string): string {
    "Tool call was not executed: " + code + "."
  }

  /** The result recorded for the next pending call, and what the call was charged. */
  predicate ToolLeaves(
    state: AgentState, budget: TurnBudget, answer: Answer, result: ToolResult, effect: Effect, after: AgentState)
    requires answer.ToolAnswer? && state.nextToolIndex < |state.pending|
  {
    var call := state.pending[state.nextToolIndex];
    && after.toolResults == state.toolResults + [result]
    && after.messages
       == state.messages + [ToolResultMessage(result.callId, result.content, result.status.Error?, [])]
    && after.pending == state.pending && after.nextToolIndex == state.nextToolIndex + 1
    && after.modelCalls == state.modelCalls && after.finalAnswer == state.finalAnswer
    && if state.modelCalls >= budget.modelCalls then
         && result
            == ToolResult(
              call.callId, call.name, Error, NotExecuted("model_budget_exhausted"),
              Some(ModelBudgetExhausted))
         && after.termination == Some(ModelBudgetExhausted) && after.toolCalls == state.toolCalls
         && effect == ToolRefused(call.callId)
       else if state.toolCalls >= budget.toolCalls then
         && result
            == ToolResult(
              call.callId, call.name, Error, NotExecuted("tool_budget_exhausted"),
              Some(ToolBudgetExhausted))
         && after.termination == Some(ToolBudgetExhausted) && after.toolCalls == state.toolCalls
         && effect == ToolRefused(call.callId)
       else if state.activeSeconds >= budget.activeSeconds then
         && result
            == ToolResult(
              call.callId, call.name, Error, NotExecuted("active_time_budget_exhausted"),
              Some(ActiveTimeBudgetExhausted))
         && after.termination == Some(ActiveTimeBudgetExhausted) && after.toolCalls == state.toolCalls
         && effect == ToolRefused(call.callId)
       else
         && after.termination == state.termination && after.toolCalls == state.toolCalls + 1
         && if answer.argumentsAreObject
            then
              && result == answer.result && after.activeSeconds == state.activeSeconds + answer.elapsed
              && effect == ToolExecuted(call.callId)
            else
              && result == ToolResult(call.callId, call.name, Error, "Tool arguments must be a JSON object.", None)
              && after.activeSeconds == state.activeSeconds && effect == ToolArgumentsInvalid(call.callId)
  }

  /** A tool step records exactly one result, whose text is also what the model is shown. */
  lemma ToolRecords(estimator: Message -> nat, budget: TurnBudget, answers: seq<Answer>, answer: Answer)
    returns (result: ToolResult)
    requires budget.Valid() && AllowedRun(estimator, budget, answers)
    requires PointAfter(estimator, budget, answers).node.ExecuteOneTool?
    requires Allowed(estimator, budget, PointAfter(estimator, budget, answers), answer)
    ensures var state := PointAfter(estimator, budget, answers).state;
            && state.nextToolIndex < |state.pending|
            && var (after, effect) := ExecuteOneToolNode(estimator, state, budget, answer);
               ToolLeaves(state, budget, answer, result, effect, after)
  {
    PendingAtPoint(estimator, budget, answers);
    hide AllowedRun, PointAfter, ToolLeaves, ExecuteOneToolNode;
    result := PendingCallIsRecorded(estimator, PointAfter(estimator, budget, answers).state, budget, answer);
  }

  lemma PendingCallIsRecorded(estimator: Message -> nat, state: AgentState, budget: TurnBudget, answer: Answer)
    returns (result: ToolResult)
    requires answer.ToolAnswer? && state.nextToolIndex < |state.pending|
    ensures var (after, effect) := ExecuteOneToolNode(estimator, state, budget, answer);
            ToolLeaves(state, budget, answer, result, effect, after)
  {
    result := RunTool(state, budget, state.pending[state.nextToolIndex], answer).result;
    RefusalsSay(state.pending[state.nextToolIndex]);
    hide Refusal;
  }

  lemma RefusalsSay(call: ToolCall)
    ensures Refusal(call, ModelBudgetExhausted)
         == ToolResult(
              call.callId, call.name, Error, NotExecuted("model_budget_exhausted"),
              Some(ModelBudgetExhausted))
    ensures Refusal(call, ToolBudgetExhausted)
         == ToolResult(
              call.callId, call.name, Error, NotExecuted("tool_budget_exhausted"),
              Some(ToolBudgetExhausted))
    ensures Refusal(call, ActiveTimeBudgetExhausted)
         == ToolResult(
              call.callId, call.name, Error, NotExecuted("active_time_budget_exhausted"),
              Some(ActiveTimeBudgetExhausted))
  {
    assert LimitCode(ModelBudgetExhausted) == "model_budget_exhausted";
    assert LimitCode(ToolBudgetExhausted) == "tool_budget_exhausted";
    assert LimitCode(ActiveTimeBudgetExhausted) == "active_time_budget_exhausted";
    hide LimitCode;
  }

  // ---- compress_context -----------------------------------------------------------

  /** What a compression at the beginning of a run leaves, when no turn has been recorded. */
  predicate CompressionLeaves(state: AgentState, budget: TurnBudget, compaction: Compaction, after: AgentState) {
    var reported := state.compressionReason == Some(ContextLengthReported);
    var over := state.effectiveLimit > 0 && state.estimatedTokens > state.effectiveLimit;
    var fits := compaction.Rebuilt? && compaction.base.estimatedTokens <= compaction.base.effectiveLimit;
    var skipped := state.modelCalls + 1 >= budget.modelCalls || state.compressions >= budget.compressions;
    var charged := !skipped && !compaction.Noop?;
    && !after.compressionRequested && after.compressionReason.None? && after.finalAnswer == state.finalAnswer
    && after.compressions == state.compressions + (if charged then 1 else 0)
    && after.modelCalls == state.modelCalls + (if charged then 1 + compaction.retries else 0)
    && after.providerRetries == state.providerRetries + (if charged then compaction.retries else 0)
    && (if !skipped && fits then
          && after.messages == compaction.base.messages && after.manifest == compaction.base.manifest
          && after.estimatedTokens == compaction.base.estimatedTokens
          && after.effectiveLimit == compaction.base.effectiveLimit
        else
          && after.messages == state.messages && after.manifest == state.manifest
          && after.estimatedTokens == state.estimatedTokens && after.effectiveLimit == state.effectiveLimit)
    && after.termination
       == if skipped then (if reported then Some(ContextUnrecoverable) else None)
          else if fits then None
          else if compaction.RebuildOverflows? || compaction.Rebuilt? || reported || over then
            Some(ContextUnrecoverable)
          else None
  }

  /** Compression reached before any recorded turn: replaced whole, given up, or left as it was. */
  lemma CompressionOutcome(
    estimator: Message -> nat, budget: TurnBudget, answers: seq<Answer>, compaction: Compaction)
    requires budget.Valid() && AllowedRun(estimator, budget, answers)
    requires PointAfter(estimator, budget, answers).node.CompressContext?
    requires Allowed(estimator, budget, PointAfter(estimator, budget, answers), CompressAnswer(compaction))
    requires var state := PointAfter(estimator, budget, answers).state; |state.messages| == |state.manifest|
    ensures var state := PointAfter(estimator, budget, answers).state;
            CompressionLeaves(state, budget, compaction, CompressContextNode(estimator, state, budget, compaction))
  {
    var state := PointAfter(estimator, budget, answers).state;
    var history := RunKeepsInvariant(estimator, budget, answers);
    ClearedBatchHidesTail(state, history);
    EmptyTailIsNothing(state.messages, |state.manifest|, history);
    hide AllowedRun, PointAfter, Linked, WithinBudget, LastComplete, TailIsValid, BuiltContext;
    EmptyTailCompresses(estimator, state, budget, compaction);
  }

  lemma EmptyTailCompresses(
    estimator: Message -> nat, state: AgentState, budget: TurnBudget, compaction: Compaction)
    requires |state.messages| == |state.manifest| && ActiveTurnToolTail(state).Some? && state.termination.None?
    ensures CompressionLeaves(state, budget, compaction, CompressContextNode(estimator, state, budget, compaction))
  {
    hide TailIsValid;
    assert state.messages[|state.manifest|..] == [];
    assert ActiveTurnToolTail(state) == Some([]);
    assert Estimate(estimator, []) == 0;
    assert compaction.Rebuilt? ==> compaction.base.messages + [] == compaction.base.messages;
  }

  // ---- finalize -------------------------------------------------------------------

  /** The answer that is validated: the finalizer's if it keeps its contract, and the turn's otherwise. */
  function SettledAnswer(state: AgentState, budget: TurnBudget, answer: Answer): string
    requires answer.FinalizeAnswer? && state.finalAnswer.Some?
  {
    if answer.finalizer.Some? && FinalizerAccepted(state, budget, answer.finalizer.value)
    then answer.finalizer.value.answer else state.finalAnswer.value
  }

  predicate Failed(termination: Option<Termination>) {
    match termination
    case Some(ModelFailed(_)) => true
    case Some(ModelBudgetExhausted) => true
    case Some(ContextUnrecoverable) => true
    case _ => false
  }

  /**
   Finalizing keeps an answer present: of a turn that did not fail it is the settled answer,
   validated against its citations, and any other turn's answer stays as it is.
   */
  lemma FinalizingKeepsAnswer(
    state: AgentState, budget: TurnBudget, answer: Answer, citations: seq<Citations.Citation>)
    requires answer.FinalizeAnswer?
    requires forall c :: c in citations ==> SourceList.ValidId(c.id)
    requires state.finalAnswer.Some? && state.finalAnswer.value != "" ==>
               SourceList.IsValidated(SettledAnswer(state, budget, answer), citations, answer.cited)
    ensures var after := FinalizeNode(state, budget, answer);
            && (if state.finalAnswer.Some? && state.finalAnswer.value != "" && !Failed(state.termination) then
                  && after.finalAnswer == Some(answer.cited) && answer.cited != ""
                  && (citations == [] ==> after.finalAnswer == Some(SettledAnswer(state, budget, answer)))
                else after.finalAnswer == state.finalAnswer)
            && after.termination
               == (if state.termination.None? then Some(TurnDone) else state.termination)
            && (var charged :=
                  && state.finalAnswer.Some? && state.finalAnswer.value != "" && !Failed(state.termination)
                  && answer.finalizer.Some? && FinalizerAccepted(state, budget, answer.finalizer.value)
                  && answer.finalizer.value.modelCalls > 0;
                && after.modelCalls
                   == state.modelCalls + (if charged then 1 + answer.finalizer.value.retries else 0)
                && after.providerRetries
                   == state.providerRetries + (if charged then answer.finalizer.value.retries else 0))
  {
    if state.finalAnswer.Some? && state.finalAnswer.value != "" {
      assert SettledAnswer(state, budget, answer) != "";
      SourceList.ValidatedIsPresent(SettledAnswer(state, budget, answer), citations, answer.cited);
    }
  }

  // ---- over whole runs ------------------------------------------------------------

  /** A turn that stopped by itself has an answer. */
  predicate StoppedHasAnswer(state: AgentState) {
    state.termination.Some? && state.termination.value.Stopped? ==> state.finalAnswer.Some?
  }

  lemma {:induction false} StoppedRunsHaveAnswers(
    estimator: Message -> nat, budget: TurnBudget, answers: seq<Answer>)
    requires budget.Valid() && AllowedRun(estimator, budget, answers)
    ensures StoppedHasAnswer(PointAfter(estimator, budget, answers).state)
    decreases |answers|
  {
    if answers != [] {
      var earlier, last := answers[..|answers| - 1], answers[|answers| - 1];
      LastStep(estimator, budget, answers);
      var history := RunKeepsInvariant(estimator, budget, earlier);
      hide Step, Allowed, AllowedRun, PointAfter, StoppedHasAnswer;
      StoppedRunsHaveAnswers(estimator, budget, earlier);
      StepKeepsStoppedAnswer(estimator, budget, PointAfter(estimator, budget, earlier), history, last);
    }
  }

  lemma StepKeepsStoppedAnswer(
    estimator: Message -> nat, budget: TurnBudget, point: Point, history: History, answer: Answer)
    requires budget.Valid() && Invariant(estimator, budget, point, history)
    requires Allowed(estimator, budget, point, answer) && StoppedHasAnswer(point.state)
    ensures StoppedHasAnswer(Step(estimator, budget, point, answer).0.state)
  {
    var state := point.state;
    match point.node {
      case CallModel =>
        var k := CallReads(estimator, state, budget, answer);
        CallKeepsStoppedAnswer(state, budget, answer, k, CallModelNode(estimator, state, budget, answer).0);
        hide CallModelNode, CallLeaves, Invariant, StoppedHasAnswer;
      case _ =>
        hide CallModelNode, Invariant, Estimate, TailIsValid;
    }
  }

  lemma CallKeepsStoppedAnswer(state: AgentState, budget: TurnBudget, answer: Answer, k: nat, after: AgentState)
    requires answer.ModelAnswer? && k <= |answer.events| && StoppedHasAnswer(state)
    requires if state.modelCalls >= budget.modelCalls then
               after.finalAnswer == state.finalAnswer && after.termination == Some(ModelBudgetExhausted)
             else CallLeaves(state, budget, answer, k, after)
    ensures StoppedHasAnswer(after)
  {
    hide Deltas, Turns, Retries, LastFailure, Usable;
  }
}
