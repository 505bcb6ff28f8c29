/** What holds on every run of the agent graph, whatever the outside world answers. */
module AgentRuns {
  import opened Outcomes
  import opened AgentState
  import opened AgentTail
  import opened AgentNodes

  // ---- runs ---------------------------------------------------------------------

  /** The point a list of answers leads to, if each answer was within its contract. */
  function RunTo(estimator: Message -> nat, budget: TurnBudget, answers: seq<Answer>): Option<Point> {
    if answers == [] then Some(START)
    else
      match RunTo(estimator, budget, answers[..|answers| - 1])
      case None => None
      case Some(point) =>
        var answer := answers[|answers| - 1];
        if Allowed(estimator, budget, point, answer) then Some(Step(estimator, budget, point, answer).0) else None
  }

  predicate AllowedRun(estimator: Message -> nat, budget: TurnBudget, answers: seq<Answer>) {
    RunTo(estimator, budget, answers).Some?
  }

  function PointAfter(estimator: Message -> nat, budget: TurnBudget, answers: seq<Answer>): Point
    requires AllowedRun(estimator, budget, answers)
  {
    RunTo(estimator, budget, answers).value
  }

  lemma OneMoreStep(estimator: Message -> nat, budget: TurnBudget, answers: seq<Answer>, answer: Answer)
    requires AllowedRun(estimator, budget, answers)
    ensures AllowedRun(estimator, budget, answers + [answer])
            <==> Allowed(estimator, budget, PointAfter(estimator, budget, answers), answer)
    ensures Allowed(estimator, budget, PointAfter(estimator, budget, answers), answer) ==>
              PointAfter(estimator, budget, answers + [answer])
              == Step(estimator, budget, PointAfter(estimator, budget, answers), answer).0
  {
    assert (answers + [answer])[..|answers|] == answers;
  }

  // ---- the invariant ------------------------------------------------------------

  /** The messages are the frozen prefix followed by the rendering of this history. */
  ghost predicate Linked(estimator: Message -> nat, state: AgentState, history: History) {
    && |state.manifest| <= |state.messages|
    && state.messages[|state.manifest|..] == Render(history)
    && WellFormed(history)
    && ResultsMatch(Observations(history), state.toolResults)
    && state.estimatedTokens == Estimate(estimator, state.messages)
  }

  ghost predicate InStep(state: AgentState, history: History) {
    state.pending == LastCalls(history) && state.nextToolIndex == Answered(history)
  }

  ghost predicate Invariant(estimator: Message -> nat, budget: TurnBudget, point: Point, history: History) {
    var state := point.state;
    && WithinBudget(state, budget)
    && (point.node.PrepareContext? ==> state == NEW_AGENT_STATE && history.Nothing?)
    && (!point.node.PrepareContext? ==> Linked(estimator, state, history))
    && (point.node.CompressContext? ==>
          && LastComplete(history) && state.pending == [] && state.nextToolIndex == 0
          && state.compressionRequested && state.termination.None?
          && (history.Then? ==> state.compressionReason == Some(ContextLengthReported)))
    && (point.node.CallModel? ==>
          InStep(state, history) && LastComplete(history) && !state.compressionRequested)
    && (point.node.ExecuteOneTool? ==>
          InStep(state, history) && !state.compressionRequested && state.nextToolIndex < |state.pending|)
    && (point.node.End? ==> state.termination.Some?)
  }

  // ---- one step of each node ----------------------------------------------------

  /** Reading a stream never charges past a budget, and charges one call for each retry. */
  lemma {:induction false} ReadEventsKeepsBudget(stream: Stream, budget: TurnBudget, events: seq<GatewayEvent>)
    requires stream.modelCalls <= budget.modelCalls && stream.providerRetries <= budget.providerRetries
    ensures var read := ReadEvents(stream, budget, events);
            && stream.modelCalls <= read.modelCalls <= budget.modelCalls
            && read.providerRetries <= budget.providerRetries
            && read.modelCalls - stream.modelCalls == read.providerRetries - stream.providerRetries
            && read.modelCalls - stream.modelCalls == read.observedRetries - stream.observedRetries
    decreases |events|
  {
    if events != [] && stream.blocked.None? {
      ReadEventsKeepsBudget(ReadEvent(stream, budget, events[0]), budget, events[1..]);
    }
  }

  /** Once every batch is answered, every call id seen is the id of a recorded result. */
  lemma {:induction false} SeenIdsAreAnswered(history: History, id: string) returns (index: nat)
    requires WellFormed(history) && LastComplete(history) && id in SeenIds(history)
    ensures index < |Observations(history)|
    ensures Observations(history)[index].ToolResultMessage? && Observations(history)[index].callId == id
  {
    var earlier, last := history.earlier, history.last;
    if id in SeenIds(earlier) {
      index := SeenIdsAreAnswered(earlier, id);
    } else {
      var i :| 0 <= i < |last.calls| && last.calls[i].callId == id;
      assert Answers(last.observed[i], last.calls[i]);
      index := |Observations(earlier)| + i;
    }
  }

  lemma FreshCallsOpenBatch(history: History, content: string, calls: seq<ToolCall>, results: seq<ToolResult>)
    requires WellFormed(history) && LastComplete(history) && ResultsMatch(Observations(history), results)
    requires DispatchableAndFresh(calls, results)
    ensures WellFormed(Then(history, Batch(content, calls, [])))
  {
    forall id | id in SeenIds(history) ensures id !in IdSet(calls) {
      var j := SeenIdsAreAnswered(history, id);
      assert results[j].callId == id;
    }
  }

  lemma PrepareStep(estimator: Message -> nat, budget: TurnBudget, state: AgentState, prepared: Prepared)
    requires Invariant(estimator, budget, Point(PrepareContext, state), Nothing)
    requires BuiltContext(estimator, prepared)
    ensures var after := PrepareContextNode(state, prepared);
            Invariant(estimator, budget, Point(RouteAfterPrepare(after), after), Nothing)
  {
  }

  lemma FinalizeStep(
    estimator: Message -> nat, budget: TurnBudget, state: AgentState, history: History, answer: Answer)
    requires Invariant(estimator, budget, Point(Finalize, state), history) && answer.FinalizeAnswer?
    ensures Invariant(estimator, budget, Point(End, FinalizeNode(state, budget, answer)), history)
  {
    hide WellFormed, Render, Observations, ResultsMatch, Estimate;
  }

  /** A compression that starts after a tool batch cannot find a valid tail. */
  lemma ClearedBatchHidesTail(state: AgentState, history: History)
    requires |state.manifest| <= |state.messages| && state.messages[|state.manifest|..] == Render(history)
    requires WellFormed(history) && LastComplete(history)
    requires ResultsMatch(Observations(history), state.toolResults)
    requires state.pending == [] && state.nextToolIndex == 0
    ensures ActiveTurnToolTail(state).Some? <==> history.Nothing?
  {
    ScanIsComplete(history);
  }

  /**
   Compression keeps the invariant, leaves one model call when it charged any, and
   after a tool batch always gives the context up as unrecoverable.
   */
  lemma CompressStep(
    estimator: Message -> nat, budget: TurnBudget, state: AgentState, history: History, compaction: Compaction)
    requires Invariant(estimator, budget, Point(CompressContext, state), history)
    requires !compaction.Noop? ==> compaction.retries <= CompressionRetryLimit(state, budget)
    requires compaction.Rebuilt? ==> BuiltContext(estimator, compaction.base)
    ensures var after := CompressContextNode(estimator, state, budget, compaction);
            && Invariant(estimator, budget, Point(RouteAfterCompression(after), after), history)
            && (history.Then? ==> after.termination == Some(ContextUnrecoverable))
            && (after.compressions > state.compressions ==> after.modelCalls <= budget.modelCalls - 1)
  {
    ClearedBatchHidesTail(state, history);
    hide Linked, WithinBudget, LastComplete, ActiveTurnToolTail, BuiltContext;
    if CompressionSkipped(state, budget) {
      SkippedCompression(estimator, budget, state, history, compaction);
    } else {
      TriedCompression(estimator, budget, state, history, compaction);
    }
  }

  lemma SkippedCompression(
    estimator: Message -> nat, budget: TurnBudget, state: AgentState, history: History, compaction: Compaction)
    requires Invariant(estimator, budget, Point(CompressContext, state), history) && CompressionSkipped(state, budget)
    ensures var after := CompressContextNode(estimator, state, budget, compaction);
            && Invariant(estimator, budget, Point(RouteAfterCompression(after), after), history)
            && (history.Then? ==> after.termination == Some(ContextUnrecoverable))
            && after.compressions == state.compressions
  {
  }

  lemma TriedCompression(
    estimator: Message -> nat, budget: TurnBudget, state: AgentState, history: History, compaction: Compaction)
    requires Invariant(estimator, budget, Point(CompressContext, state), history) && !CompressionSkipped(state, budget)
    requires !compaction.Noop? ==> compaction.retries <= CompressionRetryLimit(state, budget)
    requires compaction.Rebuilt? ==> BuiltContext(estimator, compaction.base)
    requires ActiveTurnToolTail(state).Some? <==> history.Nothing?
    ensures var after := CompressContextNode(estimator, state, budget, compaction);
            && Invariant(estimator, budget, Point(RouteAfterCompression(after), after), history)
            && (history.Then? ==> after.termination == Some(ContextUnrecoverable))
            && (after.compressions > state.compressions ==> after.modelCalls <= budget.modelCalls - 1)
  {
    if history.Nothing? && compaction.Rebuilt? {
      assert ActiveTurnToolTail(state) == Some([]);
      assert compaction.base.messages + [] == compaction.base.messages;
    }
  }

  lemma AppendMessage(estimator: Message -> nat, state: AgentState, message: Message)
    requires |state.manifest| <= |state.messages|
    ensures (state.messages + [message])[|state.manifest|..] == state.messages[|state.manifest|..] + [message]
    ensures Estimate(estimator, state.messages + [message])
            == Estimate(estimator, state.messages) + estimator(message)
  {
    assert (state.messages + [message])[..|state.messages|] == state.messages;
  }

  lemma RecordedTurnIsLinked(
    estimator: Message -> nat, state: AgentState, history: History, stream: Stream, turn: ModelTurn, reserved: bool)
    requires Linked(estimator, state, history) && LastComplete(history)
    requires DispatchableAndFresh(turn.toolCalls, state.toolResults)
    ensures Linked(
              estimator, RecordTurn(estimator, state, stream, turn, reserved),
              Then(history, Batch(turn.content, turn.toolCalls, [])))
  {
    OpenedBatchRenders(history, turn.content, turn.toolCalls);
    hide WellFormed, Render, Observations, ResultsMatch, Estimate, DispatchableAndFresh, LastComplete;
    FreshCallsOpenBatch(history, turn.content, turn.toolCalls, state.toolResults);
    AppendMessage(estimator, state, AssistantMessage(turn.content, turn.toolCalls));
  }

  lemma OpenedBatchRenders(history: History, content: string, calls: seq<ToolCall>)
    ensures var next := Then(history, Batch(content, calls, []));
            && Observations(next) == Observations(history)
            && Render(next) == Render(history) + [AssistantMessage(content, calls)]
  {
    assert Observations(history) + [] == Observations(history);
  }

  lemma RecordedResultIsLinked(estimator: Message -> nat, state: AgentState, history: History, result: ToolResult)
    requires Linked(estimator, state, history) && InStep(state, history)
    requires state.nextToolIndex < |state.pending| && result.callId == state.pending[state.nextToolIndex].callId
    ensures history.Then?
    ensures Linked(estimator, RecordResult(estimator, state, result), WithAnswer(history, Observe(result)))
    ensures InStep(RecordResult(estimator, state, result), WithAnswer(history, Observe(result)))
  {
    AnsweredResultMatches(history, state.toolResults, result);
    hide WellFormed, Render, Observations, ResultsMatch, Estimate, Observe;
    AppendMessage(estimator, state, Observe(result));
    AnswerNext(history, Observe(result));
  }

  lemma AnsweredResultMatches(history: History, results: seq<ToolResult>, result: ToolResult)
    requires ResultsMatch(Observations(history), results)
    ensures ResultsMatch(Observations(history) + [Observe(result)], results + [result])
    ensures Observe(result).ToolResultMessage? && Observe(result).callId == result.callId
    ensures Observe(result).artifactRefs == []
  {
  }

  /** The state a call reads its stream in, and the counters the stream leaves. */
  lemma CallKeepsBudget(state: AgentState, budget: TurnBudget, answer: Answer)
    requires WithinBudget(state, budget) && answer.ModelAnswer?
    requires CallDecision(state, budget, answer.toolsAvailable).allowed
    ensures var requesting := Requesting(state, budget, answer.toolsAvailable);
            var stream := StreamFrom(requesting, budget, answer.events);
            && WithinBudget(AfterStream(requesting, stream, answer.elapsed), budget)
            && state.modelCalls < stream.modelCalls
  {
    var requesting := Requesting(state, budget, answer.toolsAvailable);
    ReadEventsKeepsBudget(
      Stream(requesting.modelCalls + 1, requesting.providerRetries, 0, "", [], None, None), budget, answer.events);
  }

  /** The exits of a call that record no assistant message keep the history they found. */
  lemma ExitKeepsInvariant(estimator: Message -> nat, budget: TurnBudget, after: AgentState, history: History)
    requires Linked(estimator, after, history) && LastComplete(history) && WithinBudget(after, budget)
    requires after.pending == [] && after.nextToolIndex == 0
    requires !after.compressionRequested ==> after.termination.Some?
    requires after.compressionRequested ==>
               after.termination.None? && after.compressionReason == Some(ContextLengthReported)
    ensures Invariant(estimator, budget, Point(RouteAfterModel(after), after), history)
  {
  }

  lemma TurnKeepsInvariant(
    estimator: Message -> nat, budget: TurnBudget, after: AgentState, history: History,
    stream: Stream, turn: ModelTurn, reserved: bool)
    requires Linked(estimator, after, history) && LastComplete(history) && WithinBudget(after, budget)
    requires !after.compressionRequested && (reserved ==> after.termination.Some?)
    requires DispatchableAndFresh(turn.toolCalls, after.toolResults)
    ensures var recorded := RecordTurn(estimator, after, stream, turn, reserved);
            Invariant(
              estimator, budget, Point(RouteAfterModel(recorded), recorded),
              Then(history, Batch(turn.content, turn.toolCalls, [])))
  {
    RecordedTurnIsLinked(estimator, after, history, stream, turn, reserved);
  }

  lemma SettledCallKeepsInvariant(
    estimator: Message -> nat, budget: TurnBudget, after: AgentState, history: History,
    stream: Stream, raised: Option<ModelErrorCode>, reserved: bool)
    returns (next: History)
    requires Linked(estimator, after, history) && LastComplete(history) && WithinBudget(after, budget)
    requires after.pending == [] && after.nextToolIndex == 0
    requires !after.compressionRequested && (reserved ==> after.termination.Some?)
    ensures var settled := SettleCall(estimator, after, stream, raised, reserved);
            Invariant(estimator, budget, Point(RouteAfterModel(settled), settled), next)
    ensures next == match AcceptedTurn(after, stream, raised)
                    case None => history
                    case Some(turn) => Then(history, Batch(turn.content, turn.toolCalls, []))
  {
    hide Linked, LastComplete, WithinBudget, Invariant, RecordTurn;
    var turn := AcceptedTurn(after, stream, raised);
    if turn.Some? {
      TurnKeepsInvariant(estimator, budget, after, history, stream, turn.value, reserved);
      next := Then(history, Batch(turn.value.content, turn.value.toolCalls, []));
    } else {
      FailedCallKeepsInvariant(estimator, budget, after, history, stream, raised, reserved);
      next := history;
    }
  }

  lemma FailedCallKeepsInvariant(
    estimator: Message -> nat, budget: TurnBudget, after: AgentState, history: History,
    stream: Stream, raised: Option<ModelErrorCode>, reserved: bool)
    requires Linked(estimator, after, history) && LastComplete(history) && WithinBudget(after, budget)
    requires after.pending == [] && after.nextToolIndex == 0
    requires !after.compressionRequested && AcceptedTurn(after, stream, raised).None?
    ensures var settled := SettleCall(estimator, after, stream, raised, reserved);
            Invariant(estimator, budget, Point(RouteAfterModel(settled), settled), history)
  {
    ExitKeepsInvariant(estimator, budget, SettleCall(estimator, after, stream, raised, reserved), history);
  }

  lemma CallStep(
    estimator: Message -> nat, budget: TurnBudget, state: AgentState, history: History, answer: Answer)
    returns (next: History)
    requires Invariant(estimator, budget, Point(CallModel, state), history) && answer.ModelAnswer?
    ensures var after := CallModelNode(estimator, state, budget, answer).0;
            Invariant(estimator, budget, Point(RouteAfterModel(after), after), next)
    ensures next == match SucceededTurn(state, budget, answer)
                    case None => history
                    case Some(turn) => Then(history, Batch(turn.content, turn.toolCalls, []))
  {
    var cleared := ClearFinishedBatch(state);
    var decision := CallDecision(cleared, budget, answer.toolsAvailable);
    if decision.allowed {
      CallKeepsBudget(cleared, budget, answer);
      var requesting := Requesting(cleared, budget, answer.toolsAvailable);
      var stream := StreamFrom(requesting, budget, answer.events);
      var after := AfterStream(requesting, stream, answer.elapsed);
      next := SettledCallKeepsInvariant(
        estimator, budget, after, history, stream, answer.raised, decision.reservedFinal);
    } else {
      next := history;
      ExitKeepsInvariant(estimator, budget, cleared.(termination := decision.termination), history);
    }
  }

  lemma ResultKeepsInvariant(
    estimator: Message -> nat, budget: TurnBudget, before: AgentState, history: History, result: ToolResult)
    requires Linked(estimator, before, history) && InStep(before, history) && WithinBudget(before, budget)
    requires !before.compressionRequested && before.nextToolIndex < |before.pending|
    requires result.callId == before.pending[before.nextToolIndex].callId
    ensures history.Then?
    ensures var after := RecordResult(estimator, before, result);
            Invariant(
              estimator, budget, Point(RouteAfterTool(after), after), WithAnswer(history, Observe(result)))
  {
    RecordedResultIsLinked(estimator, before, history, result);
  }

  lemma ToolStep(
    estimator: Message -> nat, budget: TurnBudget, state: AgentState, history: History, answer: Answer)
    returns (next: History)
    requires Invariant(estimator, budget, Point(ExecuteOneTool, state), history) && answer.ToolAnswer?
    requires answer.result.callId == state.pending[state.nextToolIndex].callId
    ensures var after := ExecuteOneToolNode(estimator, state, budget, answer).0;
            Invariant(estimator, budget, Point(RouteAfterTool(after), after), next)
  {
    var outcome := RunTool(state, budget, state.pending[state.nextToolIndex], answer);
    ResultKeepsInvariant(estimator, budget, outcome.charged, history, outcome.result);
    next := WithAnswer(history, Observe(outcome.result));
  }

  lemma StepKeepsInvariant(
    estimator: Message -> nat, budget: TurnBudget, point: Point, history: History, answer: Answer)
    returns (next: History)
    requires budget.Valid() && Invariant(estimator, budget, point, history)
    requires Allowed(estimator, budget, point, answer)
    ensures Invariant(estimator, budget, Step(estimator, budget, point, answer).0, next)
  {
    var state := point.state;
    next := history;
    match point.node {
      case PrepareContext => PrepareStep(estimator, budget, state, answer.prepared);
      case CompressContext => CompressStep(estimator, budget, state, history, answer.compaction);
      case CallModel => next := CallStep(estimator, budget, state, history, answer);
      case ExecuteOneTool => next := ToolStep(estimator, budget, state, history, answer);
      case Finalize => FinalizeStep(estimator, budget, state, history, answer);
      case End =>
    }
  }

  lemma {:induction false} RunKeepsInvariant(estimator: Message -> nat, budget: TurnBudget, answers: seq<Answer>)
    returns (history: History)
    requires budget.Valid() && AllowedRun(estimator, budget, answers)
    ensures Invariant(estimator, budget, PointAfter(estimator, budget, answers), history)
    decreases |answers|
  {
    if answers == [] {
      history := Nothing;
    } else {
      var earlier := answers[..|answers| - 1];
      var before := RunKeepsInvariant(estimator, budget, earlier);
      history := StepKeepsInvariant(
        estimator, budget, PointAfter(estimator, budget, earlier), before, answers[|answers| - 1]);
    }
  }
}
