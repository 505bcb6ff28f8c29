/** The agent's state, its messages, and its budget decisions. */
module AgentState {
  import opened Outcomes

  datatype ToolCall = ToolCall(callId: string, name: string, argumentsJson: string)

  datatype Message =
    | SystemMessage(content: string)
    | UserMessage(content: string)
    | AssistantMessage(content: string, toolCalls: seq<ToolCall>)
    | ToolResultMessage(callId: string, content: string, isError: bool, artifactRefs: seq<string>)

  datatype ToolStatus = Success | Error

  /** `refusal` is the metadata of a call that was answered without being executed. */
  datatype ToolResult = ToolResult(
    callId: string, toolName: string, status: ToolStatus, content: string, refusal: Option<Termination>)

  datatype ModelErrorCode =
    Connection | Timeout | Authentication | RateLimit | Transient | InvalidRequest | ContextLength | ProviderProtocol

  datatype StopReason = StopCompleted | StopToolCalls | StopMaxTokens | StopContentFilter | StopUnknown

  datatype Termination =
    | ModelBudgetExhausted
    | ToolBudgetExhausted
    | ActiveTimeBudgetExhausted
    | ProviderRetryBudgetExhausted
    | BudgetFinalResponse
    | ContextUnrecoverable
    | ModelFailed(code: ModelErrorCode)
    | Stopped(reason: StopReason)
    | TurnDone

  datatype CompressionReason = Automatic | ContextLengthReported

  datatype AgentState = AgentState(
    manifest: seq<string>,
    estimatedTokens: int,
    effectiveLimit: int,
    compressionRequested: bool,
    compressionReason: Option<CompressionReason>,
    messages: seq<Message>,
    pending: seq<ToolCall>,
    nextToolIndex: nat,
    toolResults: seq<ToolResult>,
    modelCalls: nat,
    toolCalls: nat,
    providerRetries: nat,
    compressions: nat,
    activeSeconds: real,
    finalAnswer: Option<string>,
    termination: Option<Termination>)

  const NEW_AGENT_STATE: AgentState := AgentState(
    [], 0, 0, false, None, [], [], 0, [], 0, 0, 0, 0, 0.0, None, None)

  datatype TurnBudget = TurnBudget(
    modelCalls: nat, toolCalls: nat, providerRetries: nat, compressions: nat, activeSeconds: real)
  {
    predicate Valid() {
      1 <= modelCalls && 1 <= toolCalls && 0.0 < activeSeconds
    }
  }

  datatype BudgetDecision = BudgetDecision(
    allowed: bool, toolsEnabled: bool, reservedFinal: bool, termination: Option<Termination>)

  function ModelCallDecision(state: AgentState, budget: TurnBudget, toolsRequested: bool): BudgetDecision {
    if state.modelCalls >= budget.modelCalls then
      BudgetDecision(false, false, false, Some(ModelBudgetExhausted))
    else
      var reserved := state.activeSeconds >= budget.activeSeconds || state.modelCalls == budget.modelCalls - 1;
      BudgetDecision(true, toolsRequested && !reserved, reserved, None)
  }

  /** The limits that end ordinary model and tool progress. */
  function LoopExhaustion(state: AgentState, budget: TurnBudget): Option<Termination> {
    if state.modelCalls >= budget.modelCalls then Some(ModelBudgetExhausted)
    else if state.toolCalls >= budget.toolCalls then Some(ToolBudgetExhausted)
    else if state.activeSeconds >= budget.activeSeconds then Some(ActiveTimeBudgetExhausted)
    else None
  }

  /** Every counter is within the Turn's budget. */
  predicate WithinBudget(state: AgentState, budget: TurnBudget) {
    && state.modelCalls <= budget.modelCalls
    && state.toolCalls <= budget.toolCalls
    && state.providerRetries <= budget.providerRetries
    && state.compressions <= budget.compressions
  }

  /** Token estimates add up message by message. */
  function Estimate(estimator: Message -> nat, messages: seq<Message>): nat {
    if messages == [] then 0
    else Estimate(estimator, messages[..|messages| - 1]) + estimator(messages[|messages| - 1])
  }

  lemma {:induction false} EstimateConcat(estimator: Message -> nat, left: seq<Message>, right: seq<Message>)
    ensures Estimate(estimator, left + right) == Estimate(estimator, left) + Estimate(estimator, right)
  {
    if right == [] {
      assert left + right == left;
    } else {
      var shorter := right[..|right| - 1];
      assert (left + right)[..|left + right| - 1] == left + shorter;
      EstimateConcat(estimator, left, shorter);
    }
  }
}
