/** Runs that reach the states in which the loop and its checker part. */
module AgentWitnesses {
  import opened Outcomes
  import opened AgentState
  import opened AgentTail
  import opened AgentNodes
  import opened AgentRuns
  import opened AgentTheorems

  const CALL: ToolCall := ToolCall("c", "f", "{}")
  const TURN: ModelTurn := ModelTurn("", [CALL], StopToolCalls, 0)
  const RESULT: ToolResult := ToolResult("c", "f", Success, "", None)

  function Preparing(estimator: Message -> nat, limit: int): Answer {
    PrepareAnswer(Prepared([UserMessage("")], ["user"], Estimate(estimator, [UserMessage("")]), limit, false))
  }

  const CALLING: Answer := ModelAnswer(true, [TurnCompleted(TURN)], None, 0.0)
  const RUNNING: Answer := ToolAnswer(true, RESULT, 0.0)
  const OVERFLOWING: Answer := ModelAnswer(true, [], Some(ContextLength), 0.0)

  lemma CallIsDispatchable()
    ensures DispatchableAndFresh([CALL], []) && ToolNameDispatches("f")
  {
    assert ToolNameDispatches("f");
  }

  lemma CallingDelivers(state: AgentState, budget: TurnBudget)
    ensures StreamFrom(state, budget, [TurnCompleted(TURN)])
         == Stream(state.modelCalls + 1, state.providerRetries, 0, "", [TURN], None, None)
  {
    var start := Stream(state.modelCalls + 1, state.providerRetries, 0, "", [], None, None);
    var read := ReadEvent(start, budget, TurnCompleted(TURN));
    assert [TurnCompleted(TURN)][1..] == [];
    assert ReadEvents(read, budget, []) == read == start.(completed := [] + [TURN]);
  }

  lemma AfterPreparing(estimator: Message -> nat, budget: TurnBudget, limit: int)
    requires budget.Valid()
    ensures AllowedRun(estimator, budget, [Preparing(estimator, limit)])
    ensures var point := PointAfter(estimator, budget, [Preparing(estimator, limit)]);
            && point.node.CallModel?
            && point.state == PrepareContextNode(NEW_AGENT_STATE, Preparing(estimator, limit).prepared)
  {
    OneMoreStep(estimator, budget, [], Preparing(estimator, limit));
    assert [] + [Preparing(estimator, limit)] == [Preparing(estimator, limit)];
  }

  /** The first call records a turn with one tool call; as the reserved answer it leaves it unpending. */
  lemma AfterCalling(estimator: Message -> nat, budget: TurnBudget, limit: int, reserved: bool)
    requires budget.Valid() && (reserved <==> budget.modelCalls == 1)
    ensures var state := PrepareContextNode(NEW_AGENT_STATE, Preparing(estimator, limit).prepared);
            var after := CallModelNode(estimator, state, budget, CALLING).0;
            && SucceededTurn(state, budget, CALLING) == Some(TURN)
            && CallDecision(ClearFinishedBatch(state), budget, true).reservedFinal == reserved
            && after.messages == state.messages + [AssistantMessage("", [CALL])] && after.manifest == state.manifest
            && after.pending == (if reserved then [] else [CALL]) && after.nextToolIndex == 0
            && after.toolResults == [] && !after.compressionRequested
            && after.modelCalls == 1 && after.toolCalls == 0 && after.activeSeconds == 0.0
            && after.estimatedTokens == state.estimatedTokens + estimator(AssistantMessage("", [CALL]))
            && after.effectiveLimit == limit
  {
    var state := PrepareContextNode(NEW_AGENT_STATE, Preparing(estimator, limit).prepared);
    CallIsDispatchable();
    CallingDelivers(Requesting(state, budget, true), budget);
  }

  /** A prepared turn, one call, its result, and then an overflow. */
  function Overflow(estimator: Message -> nat, limit: int): seq<Answer> {
    [Preparing(estimator, limit)] + [CALLING] + [RUNNING] + [OVERFLOWING]
  }

  lemma AfterRunning(estimator: Message -> nat, budget: TurnBudget, state: AgentState)
    requires state.pending == [CALL] && state.nextToolIndex == 0 && state.toolCalls == 0
    requires state.modelCalls < budget.modelCalls && budget.Valid() && state.activeSeconds == 0.0
    ensures var after := ExecuteOneToolNode(estimator, state, budget, RUNNING).0;
            && after == state.(
              toolCalls := 1, toolResults := state.toolResults + [RESULT],
              messages := state.messages + [Observe(RESULT)],
              estimatedTokens := state.estimatedTokens + estimator(Observe(RESULT)), nextToolIndex := 1)
  {
  }

  lemma AfterOverflowing(estimator: Message -> nat, budget: TurnBudget, state: AgentState)
    requires state.nextToolIndex >= |state.pending| && state.modelCalls < budget.modelCalls
    ensures var after := CallModelNode(estimator, state, budget, OVERFLOWING).0;
            && after.messages == state.messages && after.manifest == state.manifest && after.compressionRequested
            && RouteAfterModel(after).CompressContext?
            && SucceededTurn(state, budget, OVERFLOWING).None?
  {
    var stream := StreamFrom(Requesting(ClearFinishedBatch(state), budget, true), budget, []);
  }

  /**
   Every budget of at least two model calls has a run that reaches compression with a
   recorded turn; so the promise to keep its tail is broken on a real run.
   */
  lemma OverflowLosesTail(estimator: Message -> nat, budget: TurnBudget, limit: int, compaction: Compaction)
    requires budget.Valid() && budget.modelCalls >= 2
    requires compaction.Rebuilt? ==> BuiltContext(estimator, compaction.base)
    requires !compaction.Noop? ==> compaction.retries == 0
    ensures AllowedRun(estimator, budget, Overflow(estimator, limit))
    ensures var point := PointAfter(estimator, budget, Overflow(estimator, limit));
            && point.node.CompressContext? && |point.state.messages| > |point.state.manifest|
            && CompressContextNode(estimator, point.state, budget, compaction).termination
               == Some(ContextUnrecoverable)
  {
    var state := OverflowPoint(estimator, budget, limit);
    CompressionNeverKeepsAToolTail(estimator, budget, Overflow(estimator, limit), compaction);
  }

  lemma OverflowPoint(estimator: Message -> nat, budget: TurnBudget, limit: int) returns (state: AgentState)
    requires budget.Valid() && budget.modelCalls >= 2
    ensures AllowedRun(estimator, budget, Overflow(estimator, limit))
    ensures PointAfter(estimator, budget, Overflow(estimator, limit)) == Point(CompressContext, state)
    ensures |state.messages| > |state.manifest|
  {
    var first := [Preparing(estimator, limit)];
    AfterPreparing(estimator, budget, limit);
    var prepared := PointAfter(estimator, budget, first).state;
    AfterCalling(estimator, budget, limit, false);
    var called := CallModelNode(estimator, prepared, budget, CALLING).0;
    OneMoreStep(estimator, budget, first, CALLING);
    AfterRunning(estimator, budget, called);
    var answered := ExecuteOneToolNode(estimator, called, budget, RUNNING).0;
    OneMoreStep(estimator, budget, first + [CALLING], RUNNING);
    AfterOverflowing(estimator, budget, answered);
    state := CallModelNode(estimator, answered, budget, OVERFLOWING).0;
    OneMoreStep(estimator, budget, first + [CALLING] + [RUNNING], OVERFLOWING);
  }

  /** That same call leaves a checkpoint that the tail check rejects. */
  lemma OverflowCheckpointIsRejected(estimator: Message -> nat, budget: TurnBudget, limit: int)
    requires budget.Valid() && budget.modelCalls >= 2
    ensures AllowedRun(estimator, budget, Overflow(estimator, limit))
    ensures !CheckpointAccepted(PointAfter(estimator, budget, Overflow(estimator, limit)).state)
  {
    var state := OverflowPoint(estimator, budget, limit);
    var history := RunKeepsInvariant(estimator, budget, Overflow(estimator, limit));
    ClearedBatchHidesTail(state, history);
    EmptyTailIsNothing(state.messages, |state.manifest|, history);
  }

  /** And so does a reserved final answer that carries a tool call nobody offered. */
  lemma ReservedCallCheckpointIsRejected(estimator: Message -> nat, budget: TurnBudget, limit: int)
    requires budget.Valid() && budget.modelCalls == 1
    ensures AllowedRun(estimator, budget, [Preparing(estimator, limit)] + [CALLING])
    ensures !CheckpointAccepted(PointAfter(estimator, budget, [Preparing(estimator, limit)] + [CALLING]).state)
  {
    AfterPreparing(estimator, budget, limit);
    AfterCalling(estimator, budget, limit, true);
    OneMoreStep(estimator, budget, [Preparing(estimator, limit)], CALLING);
    CheckpointAfterModelCall(estimator, budget, [Preparing(estimator, limit)], CALLING);
  }

  /**
   The tail check is not all: whoever prepares a context that a call and its message just
   fill gets a checkpoint that may be resumed before the tool runs, and after it one that
   passes the tail check and is over the limit.
   */
  lemma OverrunCheckpointIsRefused(estimator: Message -> nat, budget: TurnBudget)
    returns (filled: AgentState, over: AgentState)
    requires budget.Valid() && budget.modelCalls >= 2 && forall message :: estimator(message) > 0
    ensures AllowedRun(estimator, budget, Overrun(estimator))
    ensures PointAfter(estimator, budget, Overrun(estimator)) == Point(CallModel, over)
    ensures CheckpointAccepted(over) && !Resumable(estimator, over)
    ensures AllowedRun(estimator, budget, Overrun(estimator)[..2])
    ensures PointAfter(estimator, budget, Overrun(estimator)[..2]) == Point(ExecuteOneTool, filled)
    ensures Resumable(estimator, filled)
  {
    OneMessage(estimator, UserMessage(""));
    hide Resumable, CheckpointAccepted, AllowedRun, PointAfter, Estimate;
    var limit := FillingLimit(estimator);
    filled, over := OverrunPoints(estimator, budget, limit);
    assert Overrun(estimator)[..2] == [Preparing(estimator, limit)] + [CALLING];
    LoopCheckpointsResume(estimator, budget, Overrun(estimator)[..2]);
    LoopCheckpointsResume(estimator, budget, Overrun(estimator));
    LoopCheckpointsAreAccepted(estimator, budget, Overrun(estimator));
  }

  function FillingLimit(estimator: Message -> nat): nat {
    estimator(UserMessage("")) + estimator(AssistantMessage("", [CALL]))
  }

  function Overrun(estimator: Message -> nat): seq<Answer> {
    [Preparing(estimator, FillingLimit(estimator))] + [CALLING] + [RUNNING]
  }

  lemma OneMessage(estimator: Message -> nat, message: Message)
    ensures Estimate(estimator, [message]) == estimator(message)
  {
    assert [message][..0] == [];
  }

  lemma OverrunPoints(estimator: Message -> nat, budget: TurnBudget, limit: int)
    returns (filled: AgentState, over: AgentState)
    requires budget.Valid() && budget.modelCalls >= 2
    ensures
      var called := [Preparing(estimator, limit)] + [CALLING];
      && AllowedRun(estimator, budget, called) && AllowedRun(estimator, budget, called + [RUNNING])
      && PointAfter(estimator, budget, called) == Point(ExecuteOneTool, filled)
      && PointAfter(estimator, budget, called + [RUNNING]) == Point(CallModel, over)
    ensures filled.effectiveLimit == over.effectiveLimit == limit
    ensures filled.estimatedTokens
         == Estimate(estimator, [UserMessage("")]) + estimator(AssistantMessage("", [CALL]))
    ensures over.estimatedTokens == filled.estimatedTokens + estimator(Observe(RESULT))
  {
    var first := [Preparing(estimator, limit)];
    AfterPreparing(estimator, budget, limit);
    var prepared := PointAfter(estimator, budget, first).state;
    AfterCalling(estimator, budget, limit, false);
    filled := CallModelNode(estimator, prepared, budget, CALLING).0;
    OneMoreStep(estimator, budget, first, CALLING);
    AfterRunning(estimator, budget, filled);
    over := ExecuteOneToolNode(estimator, filled, budget, RUNNING).0;
    OneMoreStep(estimator, budget, first + [CALLING], RUNNING);
  }
}
