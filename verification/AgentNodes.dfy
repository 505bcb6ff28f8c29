/**
 The nodes of the agent graph as functions of the state and of what the outside world
 answers, and the edges between them. Gateway, tool executor, compressor, context
 builder and finalizer are that outside world; `Allowed` is what they promise.
 */
module AgentNodes {
  import opened Outcomes
  import opened Text
  import opened AgentState
  import opened AgentTail

  datatype Node = PrepareContext | CompressContext | CallModel | ExecuteOneTool | Finalize | End

  /** What a step asks of the outside world. */
  datatype Effect =
    | NoEffect
    | ModelRequested(toolsOffered: bool)
    | ToolExecuted(callId: string)
    | ToolArgumentsInvalid(callId: string)
    | ToolRefused(callId: string)

  datatype Prepared = Prepared(
    messages: seq<Message>, manifest: seq<string>, estimatedTokens: int, effectiveLimit: int, recommended: bool)

  datatype CompressionError = Unrecoverable | OtherFailure

  datatype CompressionResult = CompressionResult(
    completed: bool, attempted: bool, prepared: Option<Prepared>, retries: nat, error: Option<CompressionError>)

  /** How the inner compactor and the rebuild of the context end. */
  datatype Compaction =
    | Noop
    | Failed(retries: nat)
    | SummaryConflict(retries: nat)
    | RebuildOverflows(retries: nat)
    | Rebuilt(retries: nat, base: Prepared)

  datatype ModelTurn = ModelTurn(content: string, toolCalls: seq<ToolCall>, stopReason: StopReason, retries: nat)

  datatype GatewayEvent =
    | ProviderRetrying
    | TextDelta(text: string)
    | TurnCompleted(turn: ModelTurn)
    | TurnFailed(code: ModelErrorCode)
    | OtherEvent

  datatype FinalizerResult = FinalizerResult(answer: string, modelCalls: nat, retries: nat, usageIsEmpty: bool)

  datatype Answer =
    | PrepareAnswer(prepared: Prepared)
    | CompressAnswer(compaction: Compaction)
    | ModelAnswer(toolsAvailable: bool, events: seq<GatewayEvent>, raised: Option<ModelErrorCode>, elapsed: real)
    | ToolAnswer(argumentsAreObject: bool, result: ToolResult, elapsed: real)
    | FinalizeAnswer(finalizer: Option<FinalizerResult>, cited: string)

  // ---- prepare_context ----------------------------------------------------------

  function PrepareContextNode(state: AgentState, prepared: Prepared): AgentState {
    if state.messages != [] then state
    else
      state.(
        messages := prepared.messages,
        manifest := prepared.manifest,
        estimatedTokens := prepared.estimatedTokens,
        effectiveLimit := prepared.effectiveLimit,
        compressionRequested := prepared.recommended,
        compressionReason := if prepared.recommended then Some(Automatic) else None)
  }

  // ---- compress_context ---------------------------------------------------------

  /** The messages beyond the frozen prefix, when they form a valid tail. */
  function ActiveTurnToolTail(state: AgentState): Option<seq<Message>> {
    if |state.messages| < |state.manifest| then None
    else
      var tail := state.messages[|state.manifest|..];
      if TailIsValid(tail, state.pending, state.nextToolIndex, state.toolResults) then Some(tail) else None
  }

  function AppendToolTail(estimator: Message -> nat, base: Prepared, tail: seq<Message>): Option<Prepared> {
    var estimated := base.estimatedTokens + Estimate(estimator, tail);
    if estimated > base.effectiveLimit then None
    else Some(base.(messages := base.messages + tail, estimatedTokens := estimated))
  }

  /** The application's compressor around the inner compactor. */
  function Compress(estimator: Message -> nat, state: AgentState, compaction: Compaction): CompressionResult {
    match ActiveTurnToolTail(state)
    case None => CompressionResult(false, false, None, 0, Some(Unrecoverable))
    case Some(tail) =>
      match compaction
      case Noop => CompressionResult(false, false, None, 0, None)
      case Failed(retries) => CompressionResult(false, true, None, retries, Some(OtherFailure))
      case SummaryConflict(retries) => CompressionResult(false, true, None, retries, Some(OtherFailure))
      case RebuildOverflows(retries) => CompressionResult(false, true, None, retries, Some(Unrecoverable))
      case Rebuilt(retries, base) =>
        match AppendToolTail(estimator, base, tail)
        case None => CompressionResult(false, true, None, retries, Some(Unrecoverable))
        case Some(prepared) => CompressionResult(true, true, Some(prepared), retries, None)
  }

  function Max0(n: int): nat {
    if n < 0 then 0 else n
  }

  function Min(a: nat, b: nat): nat {
    if a < b then a else b
  }

  /** The provider retries one compression may use. */
  function CompressionRetryLimit(state: AgentState, budget: TurnBudget): nat {
    Min(Max0(budget.providerRetries - state.providerRetries), Max0(budget.modelCalls - state.modelCalls - 2))
  }

  predicate CompressionSkipped(state: AgentState, budget: TurnBudget) {
    state.modelCalls >= budget.modelCalls - 1 || state.compressions >= budget.compressions
  }

  function CompressContextNode(
    estimator: Message -> nat, state: AgentState, budget: TurnBudget, compaction: Compaction): AgentState
  {
    var reason := if state.compressionReason.Some? then state.compressionReason.value else Automatic;
    var settled := state.(compressionRequested := false, compressionReason := None);
    if CompressionSkipped(state, budget) then
      if reason.ContextLengthReported? then settled.(termination := Some(ContextUnrecoverable)) else settled
    else
      var result := Compress(estimator, state, compaction);
      var charged :=
        if result.attempted then
          settled.(
            compressions := settled.compressions + 1,
            modelCalls := settled.modelCalls + 1 + result.retries,
            providerRetries := settled.providerRetries + result.retries)
        else settled;
      if result.completed && result.prepared.Some? then
        var prepared := result.prepared.value;
        charged.(
          messages := prepared.messages,
          manifest := prepared.manifest,
          estimatedTokens := prepared.estimatedTokens,
          effectiveLimit := prepared.effectiveLimit)
      else if result.error == Some(Unrecoverable) || reason.ContextLengthReported?
              || (charged.effectiveLimit > 0 && charged.estimatedTokens > charged.effectiveLimit) then
        charged.(termination := Some(ContextUnrecoverable))
      else charged
  }

  // ---- call_model ---------------------------------------------------------------

  function ClearFinishedBatch(state: AgentState): AgentState {
    if state.nextToolIndex >= |state.pending| then state.(pending := [], nextToolIndex := 0) else state
  }

  function CallDecision(state: AgentState, budget: TurnBudget, toolsAvailable: bool): BudgetDecision {
    if LoopExhaustion(state, budget).Some? && state.modelCalls < budget.modelCalls then
      BudgetDecision(true, false, true, None)
    else ModelCallDecision(state, budget, toolsAvailable)
  }

  /** What reading the gateway's events accumulates. */
  datatype Stream = Stream(
    modelCalls: nat, providerRetries: nat, observedRetries: nat, text: string,
    completed: seq<ModelTurn>, failure: Option<ModelErrorCode>, blocked: Option<Termination>)

  function ReadEvent(stream: Stream, budget: TurnBudget, event: GatewayEvent): Stream {
    match event
    case ProviderRetrying =>
      if stream.modelCalls >= budget.modelCalls then stream.(blocked := Some(ModelBudgetExhausted))
      else if stream.providerRetries >= budget.providerRetries then
        stream.(blocked := Some(ProviderRetryBudgetExhausted))
      else
        stream.(
          modelCalls := stream.modelCalls + 1,
          providerRetries := stream.providerRetries + 1,
          observedRetries := stream.observedRetries + 1)
    case TextDelta(text) => stream.(text := stream.text + text)
    case TurnCompleted(turn) => stream.(completed := stream.completed + [turn])
    case TurnFailed(code) => stream.(failure := Some(code))
    case OtherEvent => stream
  }

  /** Reading stops at the first retry that no budget is left for. */
  function ReadEvents(stream: Stream, budget: TurnBudget, events: seq<GatewayEvent>): Stream
    decreases |events|
  {
    if events == [] || stream.blocked.Some? then stream
    else ReadEvents(ReadEvent(stream, budget, events[0]), budget, events[1..])
  }

  /** The node's loop over the stream. */
  method ConsumeStream(start: Stream, budget: TurnBudget, events: seq<GatewayEvent>) returns (stream: Stream)
    requires start.blocked.None?
    ensures stream == ReadEvents(start, budget, events)
  {
    stream := start;
    var index := 0;
    while index < |events|
      invariant 0 <= index <= |events|
      invariant stream.blocked.None?
      invariant ReadEvents(start, budget, events) == ReadEvents(stream, budget, events[index..])
    {
      var event := events[index];
      assert events[index..][1..] == events[index + 1..];
      if event.ProviderRetrying? {
        if stream.modelCalls >= budget.modelCalls {
          stream := stream.(blocked := Some(ModelBudgetExhausted));
          break;
        }
        if stream.providerRetries >= budget.providerRetries {
          stream := stream.(blocked := Some(ProviderRetryBudgetExhausted));
          break;
        }
        stream := stream.(
          modelCalls := stream.modelCalls + 1,
          providerRetries := stream.providerRetries + 1,
          observedRetries := stream.observedRetries + 1);
      } else if event.TextDelta? {
        stream := stream.(text := stream.text + event.text);
      } else if event.TurnCompleted? {
        stream := stream.(completed := stream.completed + [event.turn]);
      } else if event.TurnFailed? {
        stream := stream.(failure := Some(event.code));
      }
      index := index + 1;
    }
  }

  predicate LowerWord(word: string, hyphens: bool) {
    && 1 <= |word| && 'a' <= word[0] <= 'z'
    && forall i | 1 <= i < |word| ::
         'a' <= word[i] <= 'z' || '0' <= word[i] <= '9' || word[i] == '_' || (hyphens && word[i] == '-')
  }

  /** A built-in tool name, or a dotted name of an MCP or user tool. */
  predicate ToolNameDispatches(name: string) {
    || LowerWord(name, false)
    || exists i, j | 0 < i < j < |name| && name[i] == '.' && name[j] == '.' ::
         && (name[..i] == "mcp" || name[..i] == "user")
         && LowerWord(name[i + 1..j], true) && LowerWord(name[j + 1..], true)
  }

  predicate DispatchableAndFresh(calls: seq<ToolCall>, prior: seq<ToolResult>) {
    && (forall i | 0 <= i < |calls| :: 1 <= |calls[i].callId| <= 128 && ToolNameDispatches(calls[i].name))
    && DistinctIds(calls)
    && forall i, j | 0 <= i < |calls| && 0 <= j < |prior| :: calls[i].callId != prior[j].callId
  }

  function OrElse(text: string, otherwise: Option<string>): Option<string> {
    if text != "" then Some(text) else otherwise
  }

  /** The exits of a call that record no assistant message. */
  function CallExit(state: AgentState, stream: Stream, termination: Termination): AgentState {
    state.(finalAnswer := OrElse(stream.text, state.finalAnswer), termination := Some(termination))
  }

  /** The one turn a stream delivered, when the node accepts it. */
  function AcceptedTurn(state: AgentState, stream: Stream, raised: Option<ModelErrorCode>): Option<ModelTurn> {
    if stream.blocked.None? && raised.None? && stream.failure.None? && |stream.completed| == 1
       && stream.completed[0].retries == stream.observedRetries
       && DispatchableAndFresh(stream.completed[0].toolCalls, state.toolResults)
    then Some(stream.completed[0])
    else None
  }

  function RecordTurn(
    estimator: Message -> nat, state: AgentState, stream: Stream, turn: ModelTurn, reserved: bool): AgentState
  {
    var message := AssistantMessage(turn.content, turn.toolCalls);
    var answer := Some(if turn.content != "" then turn.content else stream.text);
    var recorded := state.(
      messages := state.messages + [message],
      estimatedTokens := state.estimatedTokens + estimator(message));
    if reserved then recorded.(pending := [], nextToolIndex := 0, finalAnswer := answer)
    else
      var pending := recorded.(pending := turn.toolCalls, nextToolIndex := 0);
      if turn.toolCalls == [] then
        pending.(finalAnswer := answer, termination := Some(Stopped(turn.stopReason)))
      else pending
  }

  /** The state in which the request is sent, charged for one attempt. */
  function Requesting(state: AgentState, budget: TurnBudget, toolsAvailable: bool): AgentState {
    var exhaustion := LoopExhaustion(state, budget);
    if CallDecision(state, budget, toolsAvailable).reservedFinal then
      state.(termination := Some(if exhaustion.Some? then exhaustion.value else BudgetFinalResponse))
    else state
  }

  function StreamFrom(state: AgentState, budget: TurnBudget, events: seq<GatewayEvent>): Stream {
    ReadEvents(Stream(state.modelCalls + 1, state.providerRetries, 0, "", [], None, None), budget, events)
  }

  function AfterStream(state: AgentState, stream: Stream, elapsed: real): AgentState {
    state.(
      modelCalls := stream.modelCalls,
      providerRetries := stream.providerRetries,
      activeSeconds := state.activeSeconds + elapsed)
  }

  /** How a call ends once its stream is read. */
  function SettleCall(
    estimator: Message -> nat, after: AgentState, stream: Stream, raised: Option<ModelErrorCode>, reserved: bool):
    AgentState
  {
    var failure := if raised.Some? then raised else stream.failure;
    if stream.blocked.Some? then CallExit(after, stream, stream.blocked.value)
    else if failure == Some(ContextLength) then
      after.(compressionRequested := true, compressionReason := Some(ContextLengthReported), termination := None)
    else if failure.Some? then CallExit(after, stream, ModelFailed(failure.value))
    else
      match AcceptedTurn(after, stream, raised)
      case None => CallExit(after, stream, ModelFailed(ProviderProtocol))
      case Some(turn) => RecordTurn(estimator, after, stream, turn, reserved)
  }

  function CallModelNode(
    estimator: Message -> nat, state: AgentState, budget: TurnBudget, answer: Answer): (AgentState, Effect)
    requires answer.ModelAnswer?
  {
    var cleared := ClearFinishedBatch(state);
    var decision := CallDecision(cleared, budget, answer.toolsAvailable);
    if !decision.allowed then (cleared.(termination := decision.termination), NoEffect)
    else
      var requesting := Requesting(cleared, budget, answer.toolsAvailable);
      var stream := StreamFrom(requesting, budget, answer.events);
      var after := AfterStream(requesting, stream, answer.elapsed);
      (SettleCall(estimator, after, stream, answer.raised, decision.reservedFinal),
       ModelRequested(decision.toolsEnabled))
  }

  /** The assistant turn that this call records, if it ends by recording one. */
  function SucceededTurn(state: AgentState, budget: TurnBudget, answer: Answer): Option<ModelTurn>
    requires answer.ModelAnswer?
  {
    var cleared := ClearFinishedBatch(state);
    var requesting := Requesting(cleared, budget, answer.toolsAvailable);
    var stream := StreamFrom(requesting, budget, answer.events);
    if CallDecision(cleared, budget, answer.toolsAvailable).allowed
    then AcceptedTurn(AfterStream(requesting, stream, answer.elapsed), stream, answer.raised) else None
  }

  // ---- execute_one_tool ---------------------------------------------------------

  /** The code of a loop limit, as results and terminations spell it. */
  function LimitCode(exhaustion: Termination): string {
    match exhaustion
    case ModelBudgetExhausted => "model_budget_exhausted"
    case ToolBudgetExhausted => "tool_budget_exhausted"
    case ActiveTimeBudgetExhausted => "active_time_budget_exhausted"
    case _ => ""
  }

  function Refusal(call: ToolCall, exhaustion: Termination): ToolResult {
    ToolResult(
      call.callId, call.name, Error,
      "Tool call was not executed: " + LimitCode(exhaustion) + ".", Some(exhaustion))
  }

  function InvalidArguments(call: ToolCall): ToolResult {
    ToolResult(call.callId, call.name, Error, "Tool arguments must be a JSON object.", None)
  }

  function RecordResult(estimator: Message -> nat, state: AgentState, result: ToolResult): AgentState {
    state.(
      toolResults := state.toolResults + [result],
      messages := state.messages + [Observe(result)],
      estimatedTokens := state.estimatedTokens + estimator(Observe(result)),
      nextToolIndex := state.nextToolIndex + 1)
  }

  /** The charged state, the result to record, and whether the tool ran. */
  datatype ToolOutcome = ToolOutcome(charged: AgentState, result: ToolResult, effect: Effect)

  function RunTool(state: AgentState, budget: TurnBudget, call: ToolCall, answer: Answer): ToolOutcome
    requires answer.ToolAnswer?
  {
    match LoopExhaustion(state, budget)
    case Some(exhaustion) =>
      ToolOutcome(state.(termination := Some(exhaustion)), Refusal(call, exhaustion), ToolRefused(call.callId))
    case None =>
      var charged := state.(toolCalls := state.toolCalls + 1);
      if !answer.argumentsAreObject then
        ToolOutcome(charged, InvalidArguments(call), ToolArgumentsInvalid(call.callId))
      else
        ToolOutcome(
          charged.(activeSeconds := charged.activeSeconds + answer.elapsed), answer.result, ToolExecuted(call.callId))
  }

  function ExecuteOneToolNode(
    estimator: Message -> nat, state: AgentState, budget: TurnBudget, answer: Answer): (AgentState, Effect)
    requires answer.ToolAnswer?
  {
    if state.nextToolIndex >= |state.pending| then (state, NoEffect)
    else
      var outcome := RunTool(state, budget, state.pending[state.nextToolIndex], answer);
      (RecordResult(estimator, outcome.charged, outcome.result), outcome.effect)
  }

  // ---- finalize -----------------------------------------------------------------

  predicate FailedTermination(termination: Option<Termination>) {
    && termination.Some?
    && (termination.value.ModelFailed? || termination.value.ModelBudgetExhausted?
        || termination.value.ContextUnrecoverable?)
  }

  function RemainingModelCalls(state: AgentState, budget: TurnBudget): nat {
    if state.activeSeconds >= budget.activeSeconds then 0 else Max0(budget.modelCalls - state.modelCalls)
  }

  predicate IsBlank(text: string) {
    forall i | 0 <= i < |text| :: IsSpace(text[i])
  }

  /** The finalizer's answer respects its contract and the budget it was given. */
  predicate FinalizerAccepted(state: AgentState, budget: TurnBudget, result: FinalizerResult) {
    && !IsBlank(result.answer) && |result.answer| <= 200_000
    && result.modelCalls <= 1
    && (result.modelCalls == 0 ==> result.usageIsEmpty)
    && result.retries <= Max0(budget.providerRetries - state.providerRetries)
    && result.modelCalls + result.retries <= RemainingModelCalls(state, budget)
  }

  function FinalizeNode(state: AgentState, budget: TurnBudget, answer: Answer): AgentState
    requires answer.FinalizeAnswer?
  {
    var answered :=
      if state.finalAnswer.Some? && state.finalAnswer.value != "" && !FailedTermination(state.termination) then
        var finalized :=
          if answer.finalizer.Some? && FinalizerAccepted(state, budget, answer.finalizer.value) then
            var result := answer.finalizer.value;
            if result.modelCalls > 0 then
              state.(
                modelCalls := state.modelCalls + 1 + result.retries,
                providerRetries := state.providerRetries + result.retries)
            else state
          else state;
        finalized.(finalAnswer := Some(answer.cited))
      else state;
    if answered.termination.None? then answered.(termination := Some(TurnDone)) else answered
  }

  // ---- the graph ----------------------------------------------------------------

  function RouteAfterPrepare(state: AgentState): Node {
    if state.compressionRequested then CompressContext else CallModel
  }

  function RouteAfterCompression(state: AgentState): Node {
    if state.termination.Some? then Finalize else CallModel
  }

  function RouteAfterModel(state: AgentState): Node {
    if state.compressionRequested then CompressContext
    else if state.termination.Some? && state.pending == [] then Finalize
    else if state.pending != [] then ExecuteOneTool
    else Finalize
  }

  function RouteAfterTool(state: AgentState): Node {
    if state.nextToolIndex < |state.pending| then ExecuteOneTool else CallModel
  }

  /** Where the graph is, and with which state. */
  datatype Point = Point(node: Node, state: AgentState)

  const START: Point := Point(PrepareContext, NEW_AGENT_STATE)

  predicate BuiltContext(estimator: Message -> nat, prepared: Prepared) {
    && prepared.messages != []
    && |prepared.messages| == |prepared.manifest|
    && prepared.estimatedTokens == Estimate(estimator, prepared.messages)
  }

  /** The contracts of the outside world at one point. */
  predicate Allowed(estimator: Message -> nat, budget: TurnBudget, point: Point, answer: Answer) {
    match point.node
    case PrepareContext => answer.PrepareAnswer? && BuiltContext(estimator, answer.prepared)
    case CompressContext =>
      && answer.CompressAnswer?
      && (!answer.compaction.Noop? ==>
            answer.compaction.retries <= CompressionRetryLimit(point.state, budget))
      && (answer.compaction.Rebuilt? ==> BuiltContext(estimator, answer.compaction.base))
    case CallModel => answer.ModelAnswer? && answer.elapsed >= 0.0
    case ExecuteOneTool =>
      && answer.ToolAnswer? && answer.elapsed >= 0.0
      && (point.state.nextToolIndex < |point.state.pending| ==>
            answer.result.callId == point.state.pending[point.state.nextToolIndex].callId)
    case Finalize => answer.FinalizeAnswer?
    case End => true
  }

  function Step(estimator: Message -> nat, budget: TurnBudget, point: Point, answer: Answer): (Point, Effect)
    requires Allowed(estimator, budget, point, answer)
  {
    match point.node
    case PrepareContext =>
      var state := PrepareContextNode(point.state, answer.prepared);
      (Point(RouteAfterPrepare(state), state), NoEffect)
    case CompressContext =>
      var state := CompressContextNode(estimator, point.state, budget, answer.compaction);
      (Point(RouteAfterCompression(state), state), NoEffect)
    case CallModel =>
      var (state, effect) := CallModelNode(estimator, point.state, budget, answer);
      (Point(RouteAfterModel(state), state), effect)
    case ExecuteOneTool =>
      var (state, effect) := ExecuteOneToolNode(estimator, point.state, budget, answer);
      (Point(RouteAfterTool(state), state), effect)
    case Finalize =>
      (Point(End, FinalizeNode(point.state, budget, answer)), NoEffect)
    case End =>
      (point, NoEffect)
  }
}
