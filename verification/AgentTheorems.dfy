/** The promises of the agent loop, over every run. */
module AgentTheorems {
  import opened Outcomes
  import opened AgentState
  import opened AgentTail
  import opened AgentNodes
  import opened AgentRuns

  /** In every reachable state every counter is within its budget. */
  lemma CountersStayWithinBudget(estimator: Message -> nat, budget: TurnBudget, answers: seq<Answer>)
    requires budget.Valid() && AllowedRun(estimator, budget, answers)
    ensures WithinBudget(PointAfter(estimator, budget, answers).state, budget)
  {
    var history := RunKeepsInvariant(estimator, budget, answers);
  }

  /** From prepare on, the recorded estimate is the estimate of every message kept. */
  lemma TokensAreConserved(estimator: Message -> nat, budget: TurnBudget, answers: seq<Answer>)
    requires budget.Valid() && AllowedRun(estimator, budget, answers)
    ensures var state := PointAfter(estimator, budget, answers).state;
            state.estimatedTokens == Estimate(estimator, state.messages)
  {
    var history := RunKeepsInvariant(estimator, budget, answers);
  }

  predicate CheckpointAccepted(state: AgentState) {
    ActiveTurnToolTail(state).Some?
  }

  lemma LinkedInStepIsAccepted(estimator: Message -> nat, state: AgentState, history: History)
    requires Linked(estimator, state, history) && InStep(state, history)
    ensures CheckpointAccepted(state)
  {
    AcceptedExactlyShapes(
      state.messages[|state.manifest|..], state.pending, state.nextToolIndex, state.toolResults);
    assert ShapeOf(
        history, state.messages[|state.manifest|..], state.pending, state.nextToolIndex, state.toolResults);
  }

  /**
   All that resuming asks of a checkpoint's messages beyond the frozen prefix and of its
   tokens: the tail check, a recorded estimate that is the sum, and a sum within the limit.
   */
  predicate Resumable(estimator: Message -> nat, state: AgentState) {
    && 0 < state.estimatedTokens
    && CheckpointAccepted(state)
    && state.estimatedTokens
       == Estimate(estimator, state.messages[..|state.manifest|])
          + Estimate(estimator, ActiveTurnToolTail(state).value)
    && state.estimatedTokens <= state.effectiveLimit
  }

  /** With its estimate conserved, an accepted checkpoint is resumed exactly while it is within the limit. */
  lemma ConservedResumes(estimator: Message -> nat, state: AgentState)
    requires |state.manifest| <= |state.messages|
    requires state.estimatedTokens == Estimate(estimator, state.messages)
    ensures Resumable(estimator, state)
            <==> CheckpointAccepted(state) && 0 < state.estimatedTokens <= state.effectiveLimit
  {
    var prefix, tail := state.messages[..|state.manifest|], state.messages[|state.manifest|..];
    assert prefix + tail == state.messages;
    EstimateConcat(estimator, prefix, tail);
  }

  /** Before a model call or a tool, a checkpoint may be resumed exactly while it is within the token limit. */
  lemma LoopCheckpointsResume(estimator: Message -> nat, budget: TurnBudget, answers: seq<Answer>)
    requires budget.Valid() && AllowedRun(estimator, budget, answers)
    requires var node := PointAfter(estimator, budget, answers).node; node.CallModel? || node.ExecuteOneTool?
    ensures var state := PointAfter(estimator, budget, answers).state;
            Resumable(estimator, state) <==> 0 < state.estimatedTokens <= state.effectiveLimit
  {
    var history := RunKeepsInvariant(estimator, budget, answers);
    LoopCheckpointsAreAccepted(estimator, budget, answers);
    ConservedResumes(estimator, PointAfter(estimator, budget, answers).state);
  }

  /** So may the one after preparing. */
  lemma PreparedCheckpointResumes(estimator: Message -> nat, budget: TurnBudget, prepared: Prepared)
    requires budget.Valid() && BuiltContext(estimator, prepared)
    ensures Resumable(estimator, PrepareContextNode(NEW_AGENT_STATE, prepared))
            <==> 0 < prepared.estimatedTokens <= prepared.effectiveLimit
  {
    PreparedCheckpointIsAccepted(estimator, budget, prepared);
    ConservedResumes(estimator, PrepareContextNode(NEW_AGENT_STATE, prepared));
  }

  /** Whenever the graph is about to call the model or to run a tool, its checkpoint passes the tail check. */
  lemma LoopCheckpointsAreAccepted(estimator: Message -> nat, budget: TurnBudget, answers: seq<Answer>)
    requires budget.Valid() && AllowedRun(estimator, budget, answers)
    requires var node := PointAfter(estimator, budget, answers).node; node.CallModel? || node.ExecuteOneTool?
    ensures CheckpointAccepted(PointAfter(estimator, budget, answers).state)
  {
    var history := RunKeepsInvariant(estimator, budget, answers);
    LinkedInStepIsAccepted(estimator, PointAfter(estimator, budget, answers).state, history);
  }

  /** The state after preparing is accepted wherever the graph goes next. */
  lemma PreparedCheckpointIsAccepted(estimator: Message -> nat, budget: TurnBudget, prepared: Prepared)
    requires budget.Valid() && BuiltContext(estimator, prepared)
    ensures CheckpointAccepted(PrepareContextNode(NEW_AGENT_STATE, prepared))
  {
    PrepareStep(estimator, budget, NEW_AGENT_STATE, prepared);
    LinkedInStepIsAccepted(estimator, PrepareContextNode(NEW_AGENT_STATE, prepared), Nothing);
  }

  /** With its latest batch just opened, a state is accepted exactly if that batch is pending. */
  lemma OpenedBatchIsAccepted(estimator: Message -> nat, state: AgentState, history: History)
    requires Linked(estimator, state, history) && history.Then? && history.last.observed == []
    requires state.nextToolIndex == 0
    ensures CheckpointAccepted(state) <==> state.pending == history.last.calls
  {
    ScanIsComplete(history);
    assert CallsParse(history.last.calls);
  }

  /**
   After a model call the checkpoint is accepted exactly when the call recorded a turn,
   one without tool calls if it was the reserved final answer; or recorded none and no
   turn had been recorded before. `|messages| == |manifest|` says the latter.
   */
  lemma CheckpointAfterModelCall(
    estimator: Message -> nat, budget: TurnBudget, answers: seq<Answer>, answer: Answer)
    requires budget.Valid() && AllowedRun(estimator, budget, answers)
    requires PointAfter(estimator, budget, answers).node.CallModel?
    requires answer.ModelAnswer? && answer.elapsed >= 0.0
    ensures var state := PointAfter(estimator, budget, answers).state;
            var after := CallModelNode(estimator, state, budget, answer).0;
            var turn := SucceededTurn(state, budget, answer);
            CheckpointAccepted(after) <==>
            if turn.Some? then
              CallDecision(ClearFinishedBatch(state), budget, answer.toolsAvailable).reservedFinal
              ==> turn.value.toolCalls == []
            else |state.messages| == |state.manifest|
  {
    var history := RunKeepsInvariant(estimator, budget, answers);
    CallAcceptance(estimator, budget, PointAfter(estimator, budget, answers).state, history, answer);
  }

  /** And it may be resumed exactly when it is also within the token limit. */
  lemma ResumableAfterModelCall(
    estimator: Message -> nat, budget: TurnBudget, answers: seq<Answer>, answer: Answer)
    requires budget.Valid() && AllowedRun(estimator, budget, answers)
    requires PointAfter(estimator, budget, answers).node.CallModel?
    requires answer.ModelAnswer? && answer.elapsed >= 0.0
    ensures var state := PointAfter(estimator, budget, answers).state;
            var after := CallModelNode(estimator, state, budget, answer).0;
            var turn := SucceededTurn(state, budget, answer);
            Resumable(estimator, after) <==>
            && 0 < after.estimatedTokens <= after.effectiveLimit
            && (if turn.Some? then
                  CallDecision(ClearFinishedBatch(state), budget, answer.toolsAvailable).reservedFinal
                  ==> turn.value.toolCalls == []
                else |state.messages| == |state.manifest|)
  {
    var state := PointAfter(estimator, budget, answers).state;
    var history := RunKeepsInvariant(estimator, budget, answers);
    hide CallModelNode, CheckpointAccepted, Resumable, AllowedRun, PointAfter, CallDecision, SucceededTurn;
    CallAcceptance(estimator, budget, state, history, answer);
    var next := CallStep(estimator, budget, state, history, answer);
    ConservedResumes(estimator, CallModelNode(estimator, state, budget, answer).0);
  }

  lemma CallAcceptance(
    estimator: Message -> nat, budget: TurnBudget, state: AgentState, history: History, answer: Answer)
    requires Invariant(estimator, budget, Point(CallModel, state), history) && answer.ModelAnswer?
    ensures var after := CallModelNode(estimator, state, budget, answer).0;
            var turn := SucceededTurn(state, budget, answer);
            CheckpointAccepted(after) <==>
            if turn.Some? then
              CallDecision(ClearFinishedBatch(state), budget, answer.toolsAvailable).reservedFinal
              ==> turn.value.toolCalls == []
            else |state.messages| == |state.manifest|
  {
    var after := CallModelNode(estimator, state, budget, answer).0;
    var next := CallStep(estimator, budget, state, history, answer);
    CallEndings(estimator, budget, state, answer);
    if SucceededTurn(state, budget, answer).Some? {
      OpenedBatchIsAccepted(estimator, after, next);
    } else {
      ClearedBatchHidesTail(after, history);
      EmptyTailIsNothing(state.messages, |state.manifest|, history);
    }
  }

  lemma EmptyTailIsNothing(messages: seq<Message>, prefix: nat, history: History)
    requires prefix <= |messages| && messages[prefix..] == Render(history)
    ensures history.Nothing? <==> |messages| == prefix
  {
  }

  /** What a call leaves pending, and that it records nothing unless it accepted a turn. */
  lemma CallEndings(estimator: Message -> nat, budget: TurnBudget, state: AgentState, answer: Answer)
    requires answer.ModelAnswer? && state.nextToolIndex >= |state.pending|
    ensures var after := CallModelNode(estimator, state, budget, answer).0;
            var turn := SucceededTurn(state, budget, answer);
            && after.nextToolIndex == 0
            && (turn.None? ==>
                  && after.pending == [] && after.messages == state.messages && after.manifest == state.manifest
                  && after.toolResults == state.toolResults)
            && (turn.Some? ==>
                  after.pending ==
                  if CallDecision(ClearFinishedBatch(state), budget, answer.toolsAvailable).reservedFinal
                  then [] else turn.value.toolCalls)
  {
    var cleared := ClearFinishedBatch(state);
    var decision := CallDecision(cleared, budget, answer.toolsAvailable);
    if decision.allowed {
      var requesting := Requesting(cleared, budget, answer.toolsAvailable);
      var stream := StreamFrom(requesting, budget, answer.events);
      var after := AfterStream(requesting, stream, answer.elapsed);
      hide SettleCall, AcceptedTurn, StreamFrom, CallDecision, LoopExhaustion;
      SettleEndings(estimator, after, stream, answer.raised, decision.reservedFinal);
    }
  }

  lemma SettleEndings(
    estimator: Message -> nat, after: AgentState, stream: Stream, raised: Option<ModelErrorCode>, reserved: bool)
    requires after.pending == [] && after.nextToolIndex == 0
    ensures var settled := SettleCall(estimator, after, stream, raised, reserved);
            var turn := AcceptedTurn(after, stream, raised);
            && settled.nextToolIndex == 0
            && (turn.None? ==>
                  && settled.pending == [] && settled.messages == after.messages
                  && settled.manifest == after.manifest && settled.toolResults == after.toolResults)
            && (turn.Some? ==> settled.pending == if reserved then [] else turn.value.toolCalls)
  {
  }

  /**
   Whatever the tail, one that fits behind a rebuilt context is appended whole and its
   tokens are added exactly; one that does not fit is refused.
   */
  lemma AppendedTailIsConserved(estimator: Message -> nat, base: Prepared, tail: seq<Message>)
    requires BuiltContext(estimator, base)
    ensures var appended := AppendToolTail(estimator, base, tail);
            && (appended.Some? <==> Estimate(estimator, base.messages + tail) <= base.effectiveLimit)
            && (appended.Some? ==>
                  && appended.value.messages == base.messages + tail
                  && appended.value.messages[|appended.value.manifest|..] == tail
                  && appended.value.estimatedTokens == Estimate(estimator, appended.value.messages))
  {
    EstimateConcat(estimator, base.messages, tail);
  }

  /**
   The application promises that compression keeps the active tool tail. Reached through
   the graph it cannot: the call that reports the overflow has already dropped the
   finished batch from `pending`, so the tail no longer passes its own check.
   Compression can complete only while no turn has been recorded.
   */
  lemma CompressionNeverKeepsAToolTail(
    estimator: Message -> nat, budget: TurnBudget, answers: seq<Answer>, compaction: Compaction)
    requires budget.Valid() && AllowedRun(estimator, budget, answers)
    requires PointAfter(estimator, budget, answers).node.CompressContext?
    requires Allowed(estimator, budget, PointAfter(estimator, budget, answers), CompressAnswer(compaction))
    ensures var state := PointAfter(estimator, budget, answers).state;
            && (Compress(estimator, state, compaction).completed ==> |state.messages| == |state.manifest|)
            && (|state.messages| > |state.manifest| ==>
                  CompressContextNode(estimator, state, budget, compaction).termination == Some(ContextUnrecoverable))
            && (|state.messages| == |state.manifest| && compaction.Rebuilt?
                && compaction.base.estimatedTokens <= compaction.base.effectiveLimit ==>
                  Compress(estimator, state, compaction).completed)
  {
    var state := PointAfter(estimator, budget, answers).state;
    var history := RunKeepsInvariant(estimator, budget, answers);
    ClearedBatchHidesTail(state, history);
    CompressStep(estimator, budget, state, history, compaction);
    EmptyTailIsNothing(state.messages, |state.manifest|, history);
    assert Estimate(estimator, []) == 0;
  }

  /** A compression that was charged leaves at least one model call. */
  lemma CompressionLeavesAModelCall(
    estimator: Message -> nat, budget: TurnBudget, answers: seq<Answer>, compaction: Compaction)
    requires budget.Valid() && AllowedRun(estimator, budget, answers)
    requires PointAfter(estimator, budget, answers).node.CompressContext?
    requires Allowed(estimator, budget, PointAfter(estimator, budget, answers), CompressAnswer(compaction))
    ensures var state := PointAfter(estimator, budget, answers).state;
            var after := CompressContextNode(estimator, state, budget, compaction);
            after.compressions > state.compressions ==> after.modelCalls < budget.modelCalls
  {
    var history := RunKeepsInvariant(estimator, budget, answers);
    CompressStep(estimator, budget, PointAfter(estimator, budget, answers).state, history, compaction);
  }

  // ---- exhaustion ---------------------------------------------------------------

  function EffectOf(estimator: Message -> nat, budget: TurnBudget, point: Point, answer: Answer): Effect
    requires Allowed(estimator, budget, point, answer)
  {
    Step(estimator, budget, point, answer).1
  }

  predicate Exhausted(state: AgentState, budget: TurnBudget) {
    LoopExhaustion(state, budget).Some?
  }

  lemma ExhaustedStep(estimator: Message -> nat, budget: TurnBudget, point: Point, history: History, answer: Answer)
    requires budget.Valid() && Invariant(estimator, budget, point, history)
    requires Allowed(estimator, budget, point, answer) && Exhausted(point.state, budget)
    ensures Exhausted(Step(estimator, budget, point, answer).0.state, budget)
    ensures var effect := EffectOf(estimator, budget, point, answer);
            !effect.ToolExecuted? && !effect.ToolArgumentsInvalid? && effect != ModelRequested(true)
  {
    hide CallModelNode, ExecuteOneToolNode, Linked, LastComplete, InStep;
    match point.node {
      case CallModel => ExhaustedCall(estimator, budget, point.state, answer);
      case ExecuteOneTool => ExhaustedTool(estimator, budget, point.state, answer);
      case _ =>
    }
  }

  lemma ExhaustedTool(estimator: Message -> nat, budget: TurnBudget, state: AgentState, answer: Answer)
    requires Exhausted(state, budget) && answer.ToolAnswer?
    ensures Exhausted(ExecuteOneToolNode(estimator, state, budget, answer).0, budget)
    ensures var effect := ExecuteOneToolNode(estimator, state, budget, answer).1;
            !effect.ToolExecuted? && !effect.ToolArgumentsInvalid? && !effect.ModelRequested?
  {
  }

  lemma ExhaustedCall(estimator: Message -> nat, budget: TurnBudget, state: AgentState, answer: Answer)
    requires budget.Valid() && WithinBudget(state, budget) && Exhausted(state, budget)
    requires answer.ModelAnswer? && answer.elapsed >= 0.0
    ensures Exhausted(CallModelNode(estimator, state, budget, answer).0, budget)
    ensures CallModelNode(estimator, state, budget, answer).1 != ModelRequested(true)
    ensures !CallModelNode(estimator, state, budget, answer).1.ToolExecuted?
    ensures !CallModelNode(estimator, state, budget, answer).1.ToolArgumentsInvalid?
  {
    var cleared := ClearFinishedBatch(state);
    if CallDecision(cleared, budget, answer.toolsAvailable).allowed {
      CallKeepsBudget(cleared, budget, answer);
    }
  }

  /**
   Once a loop limit is reached, however much longer the run goes on, no step executes a
   tool or offers tools to the model.
   */
  lemma {:induction false} ExhaustionIsStable(
    estimator: Message -> nat, budget: TurnBudget, answers: seq<Answer>, n: nat, answer: Answer)
    requires budget.Valid() && n <= |answers| && AllowedRun(estimator, budget, answers)
    requires AllowedRun(estimator, budget, answers[..n])
    requires Exhausted(PointAfter(estimator, budget, answers[..n]).state, budget)
    requires Allowed(estimator, budget, PointAfter(estimator, budget, answers), answer)
    ensures Exhausted(PointAfter(estimator, budget, answers).state, budget)
    ensures var effect := EffectOf(estimator, budget, PointAfter(estimator, budget, answers), answer);
            !effect.ToolExecuted? && !effect.ToolArgumentsInvalid? && effect != ModelRequested(true)
    decreases |answers|
  {
    if n < |answers| {
      var earlier, last := answers[..|answers| - 1], answers[|answers| - 1];
      assert earlier[..n] == answers[..n];
      ExhaustionIsStable(estimator, budget, earlier, n, last);
      var before := RunKeepsInvariant(estimator, budget, earlier);
      ExhaustedStep(estimator, budget, PointAfter(estimator, budget, earlier), before, last);
    } else {
      assert answers[..n] == answers;
    }
    var history := RunKeepsInvariant(estimator, budget, answers);
    ExhaustedStep(estimator, budget, PointAfter(estimator, budget, answers), history, answer);
  }

  function Refusals(calls: seq<ToolCall>, exhaustion: Termination): seq<ToolResult> {
    if calls == [] then []
    else Refusals(calls[..|calls| - 1], exhaustion) + [Refusal(calls[|calls| - 1], exhaustion)]
  }

  /**
   Once a limit is reached with calls pending, the run goes on by refusing exactly those
   calls, one a step and in order, running none, and then returns to the model. `k` steps
   after the first n answers, k calls have been refused.
   */
  lemma {:induction false} PendingCallsAreRefused(
    estimator: Message -> nat, budget: TurnBudget, answers: seq<Answer>, n: nat)
    requires budget.Valid() && n <= |answers| && AllowedRun(estimator, budget, answers)
    requires AllowedRun(estimator, budget, answers[..n])
    requires PointAfter(estimator, budget, answers[..n]).node.ExecuteOneTool?
    requires Exhausted(PointAfter(estimator, budget, answers[..n]).state, budget)
    requires |answers| - n <= Unanswered(PointAfter(estimator, budget, answers[..n]).state)
    ensures var start := PointAfter(estimator, budget, answers[..n]).state;
            var k := |answers| - n;
            && start.nextToolIndex < |start.pending|
            && RefusedUpTo(budget, start, PointAfter(estimator, budget, answers), k)
    decreases |answers|
  {
    hide RefusedUpTo, Step, Allowed, Exhausted, RunTo, AllowedRun, PointAfter;
    var start := PointAfter(estimator, budget, answers[..n]).state;
    NothingRefusedYet(estimator, budget, answers[..n]);
    if n == |answers| {
      assert answers[..n] == answers;
    } else {
      var earlier, last := answers[..|answers| - 1], answers[|answers| - 1];
      LastStep(estimator, budget, answers);
      assert earlier[..n] == answers[..n];
      PendingCallsAreRefused(estimator, budget, earlier, n);
      RefuseOneMore(estimator, budget, start, PointAfter(estimator, budget, earlier), |earlier| - n, last);
    }
  }

  /** k pending calls have been refused since `start`, and nothing else has happened. */
  predicate RefusedUpTo(budget: TurnBudget, start: AgentState, point: Point, k: nat)
    requires Exhausted(start, budget) && start.nextToolIndex <= |start.pending|
  {
    var state := point.state;
    && k <= |start.pending| - start.nextToolIndex
    && state.pending == start.pending && state.nextToolIndex == start.nextToolIndex + k
    && state.toolCalls == start.toolCalls && LoopExhaustion(state, budget) == LoopExhaustion(start, budget)
    && state.toolResults
       == start.toolResults
          + Refusals(
            start.pending[start.nextToolIndex..start.nextToolIndex + k], LoopExhaustion(start, budget).value)
    && point.node == if k < |start.pending| - start.nextToolIndex then ExecuteOneTool else CallModel
  }

  lemma LastStep(estimator: Message -> nat, budget: TurnBudget, answers: seq<Answer>)
    requires answers != [] && AllowedRun(estimator, budget, answers)
    ensures var earlier, last := answers[..|answers| - 1], answers[|answers| - 1];
            && AllowedRun(estimator, budget, earlier)
            && Allowed(estimator, budget, PointAfter(estimator, budget, earlier), last)
            && PointAfter(estimator, budget, answers)
               == Step(estimator, budget, PointAfter(estimator, budget, earlier), last).0
  {
    hide Step, Allowed;
  }

  lemma NothingRefusedYet(estimator: Message -> nat, budget: TurnBudget, answers: seq<Answer>)
    requires budget.Valid() && AllowedRun(estimator, budget, answers)
    requires PointAfter(estimator, budget, answers).node.ExecuteOneTool?
    requires Exhausted(PointAfter(estimator, budget, answers).state, budget)
    ensures var point := PointAfter(estimator, budget, answers);
            point.state.nextToolIndex < |point.state.pending| && RefusedUpTo(budget, point.state, point, 0)
  {
    var history := RunKeepsInvariant(estimator, budget, answers);
    var start := PointAfter(estimator, budget, answers).state;
    assert start.toolResults + [] == start.toolResults;
  }

  lemma RefuseOneMore(
    estimator: Message -> nat, budget: TurnBudget, start: AgentState, point: Point, k: nat, answer: Answer)
    requires Exhausted(start, budget) && start.nextToolIndex + k < |start.pending|
    requires RefusedUpTo(budget, start, point, k) && Allowed(estimator, budget, point, answer)
    ensures RefusedUpTo(budget, start, Step(estimator, budget, point, answer).0, k + 1)
  {
    hide ExecuteOneToolNode, LoopExhaustion, Refusals, Refusal;
    RefuseOne(estimator, budget, point.state, answer);
    RefusedResults(
      start.toolResults, start.pending, start.nextToolIndex, k, LoopExhaustion(start, budget).value);
  }

  lemma RefusedResults(
    results: seq<ToolResult>, pending: seq<ToolCall>, i: nat, k: nat, exhaustion: Termination)
    requires i + k < |pending|
    ensures results + Refusals(pending[i..i + k], exhaustion) + [Refusal(pending[i + k], exhaustion)]
         == results + Refusals(pending[i..i + k + 1], exhaustion)
  {
    RefusalsNext(pending[i..i + k + 1], exhaustion);
    assert pending[i..i + k + 1][..k] == pending[i..i + k];
    RegroupResults(results, Refusals(pending[i..i + k], exhaustion), [Refusal(pending[i + k], exhaustion)]);
  }

  lemma RefusalsNext(calls: seq<ToolCall>, exhaustion: Termination)
    requires calls != []
    ensures Refusals(calls, exhaustion)
         == Refusals(calls[..|calls| - 1], exhaustion) + [Refusal(calls[|calls| - 1], exhaustion)]
  {
  }

  lemma RefuseOne(estimator: Message -> nat, budget: TurnBudget, state: AgentState, answer: Answer)
    requires Exhausted(state, budget) && state.nextToolIndex < |state.pending| && answer.ToolAnswer?
    ensures var after := ExecuteOneToolNode(estimator, state, budget, answer).0;
            && after.toolResults
               == state.toolResults
                  + [Refusal(state.pending[state.nextToolIndex], LoopExhaustion(state, budget).value)]
            && after.nextToolIndex == state.nextToolIndex + 1 && after.pending == state.pending
            && after.toolCalls == state.toolCalls
            && LoopExhaustion(after, budget) == LoopExhaustion(state, budget)
  {
  }

  lemma RegroupResults(a: seq<ToolResult>, b: seq<ToolResult>, c: seq<ToolResult>)
    ensures (a + b) + c == a + (b + c)
  {
  }

  // ---- termination --------------------------------------------------------------

  function Remaining(budget: TurnBudget, state: AgentState): nat {
    Max0(budget.modelCalls - state.modelCalls)
  }

  function Rank(node: Node): nat {
    match node
    case PrepareContext => 5
    case CompressContext => 4
    case ExecuteOneTool => 3
    case CallModel => 2
    case Finalize => 1
    case End => 0
  }

  function Unanswered(state: AgentState): nat {
    Max0(|state.pending| - state.nextToolIndex)
  }

  lemma StepDecreases(estimator: Message -> nat, budget: TurnBudget, point: Point, history: History, answer: Answer)
    requires budget.Valid() && Invariant(estimator, budget, point, history) && !point.node.End?
    requires Allowed(estimator, budget, point, answer)
    ensures var next := Step(estimator, budget, point, answer).0;
            || Remaining(budget, next.state) < Remaining(budget, point.state)
            || (Remaining(budget, next.state) == Remaining(budget, point.state)
                && (Rank(next.node) < Rank(point.node)
                    || (next.node == point.node && Unanswered(next.state) < Unanswered(point.state))))
  {
    hide CallModelNode, CompressContextNode, Linked, InStep, LastComplete;
    var state := point.state;
    match point.node {
      case CallModel => CallDecreases(estimator, budget, state, history, answer);
      case CompressContext => CompressionDecreases(estimator, budget, state, history, answer.compaction);
      case _ =>
    }
  }

  /** Compression moves on to a later node. */
  lemma CompressionDecreases(
    estimator: Message -> nat, budget: TurnBudget, state: AgentState, history: History, compaction: Compaction)
    requires Invariant(estimator, budget, Point(CompressContext, state), history)
    requires !compaction.Noop? ==> compaction.retries <= CompressionRetryLimit(state, budget)
    requires compaction.Rebuilt? ==> BuiltContext(estimator, compaction.base)
    ensures var after := CompressContextNode(estimator, state, budget, compaction);
            && Remaining(budget, after) <= Remaining(budget, state)
            && Rank(RouteAfterCompression(after)) < Rank(CompressContext)
  {
    CompressStep(estimator, budget, state, history, compaction);
  }

  /** A call that stays in the loop has used up a model call. */
  lemma CallDecreases(
    estimator: Message -> nat, budget: TurnBudget, state: AgentState, history: History, answer: Answer)
    requires Invariant(estimator, budget, Point(CallModel, state), history) && answer.ModelAnswer?
    ensures var after := CallModelNode(estimator, state, budget, answer).0;
            || Remaining(budget, after) < Remaining(budget, state)
            || (Remaining(budget, after) == Remaining(budget, state) && RouteAfterModel(after).Finalize?)
  {
    var cleared := ClearFinishedBatch(state);
    if CallDecision(cleared, budget, answer.toolsAvailable).allowed {
      CallKeepsBudget(cleared, budget, answer);
    }
  }

  /** The contracts of the outside world can be met at every point, so runs never get stuck. */
  lemma SomeAnswerIsAllowed(estimator: Message -> nat, budget: TurnBudget, point: Point) returns (answer: Answer)
    ensures Allowed(estimator, budget, point, answer)
  {
    match point.node {
      case PrepareContext =>
        var messages := [UserMessage("")];
        answer := PrepareAnswer(Prepared(messages, ["user"], Estimate(estimator, messages), 0, false));
      case CompressContext => answer := CompressAnswer(Noop);
      case CallModel => answer := ModelAnswer(true, [], None, 0.0);
      case ExecuteOneTool =>
        var index, pending := point.state.nextToolIndex, point.state.pending;
        answer := ToolAnswer(
          true, ToolResult(if index < |pending| then pending[index].callId else "", "", Success, "", None), 0.0);
      case _ => answer := FinalizeAnswer(None, "");
    }
  }

  /** The first n answers of an endless supply of them. */
  function Taken(supply: nat -> Answer, n: nat): seq<Answer> {
    if n == 0 then [] else Taken(supply, n - 1) + [supply(n - 1)]
  }

  /**
   Whatever the outside world answers, the graph ends, and it ends with a termination
   reason: some finite number of the answers takes it to the end.
   */
  lemma {:induction false} GraphTerminates(
    estimator: Message -> nat, budget: TurnBudget, supply: nat -> Answer, done: nat) returns (steps: nat)
    requires budget.Valid()
    requires forall n: nat :: AllowedRun(estimator, budget, Taken(supply, n))
    ensures var last := PointAfter(estimator, budget, Taken(supply, steps));
            last.node.End? && last.state.termination.Some?
    decreases Remaining(budget, PointAfter(estimator, budget, Taken(supply, done)).state),
              Rank(PointAfter(estimator, budget, Taken(supply, done)).node),
              Unanswered(PointAfter(estimator, budget, Taken(supply, done)).state)
  {
    if PointAfter(estimator, budget, Taken(supply, done)).node.End? {
      var history := RunKeepsInvariant(estimator, budget, Taken(supply, done));
      steps := done;
    } else {
      SuppliedStepDecreases(estimator, budget, supply, done);
      steps := GraphTerminates(estimator, budget, supply, done + 1);
    }
  }

  lemma SuppliedStepDecreases(
    estimator: Message -> nat, budget: TurnBudget, supply: nat -> Answer, done: nat)
    requires budget.Valid()
    requires AllowedRun(estimator, budget, Taken(supply, done))
    requires AllowedRun(estimator, budget, Taken(supply, done + 1))
    requires !PointAfter(estimator, budget, Taken(supply, done)).node.End?
    ensures var point := PointAfter(estimator, budget, Taken(supply, done));
            var next := PointAfter(estimator, budget, Taken(supply, done + 1));
            || Remaining(budget, next.state) < Remaining(budget, point.state)
            || (Remaining(budget, next.state) == Remaining(budget, point.state)
                && (Rank(next.node) < Rank(point.node)
                    || (next.node == point.node && Unanswered(next.state) < Unanswered(point.state))))
  {
    var point := PointAfter(estimator, budget, Taken(supply, done));
    var history := RunKeepsInvariant(estimator, budget, Taken(supply, done));
    assert Taken(supply, done + 1) == Taken(supply, done) + [supply(done)];
    OneMoreStep(estimator, budget, Taken(supply, done), supply(done));
    StepDecreases(estimator, budget, point, history, supply(done));
  }
}
