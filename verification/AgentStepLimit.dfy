/**
 How many steps the graph takes. The application lets it take 2,048, and a run that needs
 more is cut off before its end, without a termination reason.
 */
module AgentStepLimit {
  import opened Outcomes
  import opened Text
  import opened AgentState
  import opened AgentTail
  import opened AgentNodes
  import opened AgentRuns
  import opened AgentTheorems
  import opened AgentWitnesses

  /** The steps that the application lets the graph take. */
  const RECURSION_LIMIT: nat := 2_048

  /** The steps that a node adds to those the recorded results and model calls account for. */
  function StepsBeyond(node: Node): nat {
    match node
    case PrepareContext => 0
    case CompressContext => 1
    case CallModel => 2
    case ExecuteOneTool => 1
    case Finalize => 3
    case End => 4
  }

  function StepsAccounted(point: Point): nat {
    |point.state.toolResults| + 2 * point.state.modelCalls + StepsBeyond(point.node)
  }

  /** Every step but those at the end is accounted for. */
  lemma StepIsAccounted(estimator: Message -> nat, budget: TurnBudget, point: Point, history: History, answer: Answer)
    requires budget.Valid() && Invariant(estimator, budget, point, history) && !point.node.End?
    requires Allowed(estimator, budget, point, answer)
    ensures StepsAccounted(Step(estimator, budget, point, answer).0) > StepsAccounted(point)
  {
    hide CallModelNode, CompressContextNode, Linked, InStep, LastComplete;
    var state := point.state;
    match point.node {
      case CallModel => CallIsAccounted(estimator, budget, state, history, answer);
      case CompressContext => CompressionIsAccounted(estimator, state, budget, answer.compaction);
      case _ =>
    }
  }

  lemma CompressionIsAccounted(
    estimator: Message -> nat, state: AgentState, budget: TurnBudget, compaction: Compaction)
    ensures var after := CompressContextNode(estimator, state, budget, compaction);
            after.toolResults == state.toolResults && after.modelCalls >= state.modelCalls
  {
  }

  lemma CallIsAccounted(
    estimator: Message -> nat, budget: TurnBudget, state: AgentState, history: History, answer: Answer)
    requires Invariant(estimator, budget, Point(CallModel, state), history) && answer.ModelAnswer?
    ensures var after := CallModelNode(estimator, state, budget, answer).0;
            && after.toolResults == state.toolResults
            && (after.modelCalls > state.modelCalls
                || (after.modelCalls == state.modelCalls && RouteAfterModel(after).Finalize?))
  {
    var cleared := ClearFinishedBatch(state);
    if CallDecision(cleared, budget, answer.toolsAvailable).allowed {
      CallKeepsBudget(cleared, budget, answer);
    }
  }

  /** A run that has not ended before takes at most this many steps. */
  lemma {:induction false} StepsAreBounded(estimator: Message -> nat, budget: TurnBudget, answers: seq<Answer>)
    requires budget.Valid() && AllowedRun(estimator, budget, answers)
    requires answers != [] ==>
               && AllowedRun(estimator, budget, answers[..|answers| - 1])
               && !PointAfter(estimator, budget, answers[..|answers| - 1]).node.End?
    ensures |answers| <= StepsAccounted(PointAfter(estimator, budget, answers))
    decreases |answers|
  {
    if answers != [] {
      var earlier, last := answers[..|answers| - 1], answers[|answers| - 1];
      var before := RunKeepsInvariant(estimator, budget, earlier);
      LastStep(estimator, budget, answers);
      if earlier != [] {
        LastStep(estimator, budget, earlier);
        assert !PointAfter(estimator, budget, earlier[..|earlier| - 1]).node.End?;
      }
      hide Step, Allowed, AllowedRun, PointAfter;
      StepsAreBounded(estimator, budget, earlier);
      StepIsAccounted(estimator, budget, PointAfter(estimator, budget, earlier), before, last);
    }
  }

  /**
   The limit is enough, and the run has ended with a reason, unless the answered calls and
   twice the budgeted model calls come close to it.
   */
  lemma {:induction false} EndsWithinRecursionLimit(
    estimator: Message -> nat, budget: TurnBudget, answers: seq<Answer>)
    requires budget.Valid() && AllowedRun(estimator, budget, answers) && |answers| >= RECURSION_LIMIT
    requires |PointAfter(estimator, budget, answers).state.toolResults| + 2 * budget.modelCalls + 4
             <= RECURSION_LIMIT
    ensures var last := PointAfter(estimator, budget, answers);
            last.node.End? && last.state.termination.Some?
  {
    var history := RunKeepsInvariant(estimator, budget, answers);
    LastStep(estimator, budget, answers);
    if !PointAfter(estimator, budget, answers[..|answers| - 1]).node.End? {
      StepsAreBounded(estimator, budget, answers);
    }
  }

  // ---- the longest run ------------------------------------------------------------

  /** No turn that the model delivers carries more than `most` tool calls. */
  predicate TurnsCarryAtMost(answers: seq<Answer>, most: nat) {
    forall answer :: answer in answers ==> CarriesAtMost(answer, most)
  }

  predicate CarriesAtMost(answer: Answer, most: nat) {
    answer.ModelAnswer? ==> EventsCarryAtMost(answer.events, most)
  }

  predicate EventsCarryAtMost(events: seq<GatewayEvent>, most: nat) {
    forall event :: event in events && event.TurnCompleted? ==> |event.turn.toolCalls| <= most
  }

  /** The calls of so many turns. */
  function Delivered(turns: nat, most: nat): nat {
    if turns == 0 then 0 else Delivered(turns - 1, most) + most
  }

  lemma {:induction false} DeliveredIs(turns: nat, most: nat)
    ensures Delivered(turns, most) == turns * most
  {
    if turns > 0 {
      DeliveredIs(turns - 1, most);
      assert turns * most == (turns - 1) * most + most;
    }
  }

  lemma {:induction false} DeliveredGrows(fewer: nat, turns: nat, most: nat)
    requires fewer <= turns
    ensures Delivered(fewer, most) <= Delivered(turns, most)
  {
    if fewer < turns {
      DeliveredGrows(fewer, turns - 1, most);
    }
  }

  /**
   The tool calls that may still come: no turn but the reserved one may follow once the
   tools are used up, so all but the last turn's calls are within their budget.
   */
  function ToolsLeft(budget: TurnBudget, modelCalls: nat, toolCalls: nat, most: nat): nat {
    if toolCalls >= budget.toolCalls || modelCalls + 1 >= budget.modelCalls then 0
    else Min(Delivered(budget.modelCalls - 1 - modelCalls, most), budget.toolCalls - 1 - toolCalls + most)
  }

  /** The steps that may still come when the model is called next: the reserved call may overflow. */
  function LeftAtCall(budget: TurnBudget, modelCalls: nat, toolCalls: nat, exhausted: bool, most: nat): nat {
    if modelCalls < budget.modelCalls then
      budget.modelCalls + 2 - modelCalls + (if exhausted then 0 else ToolsLeft(budget, modelCalls, toolCalls, most))
    else 2
  }

  function StepsLeft(budget: TurnBudget, point: Point, most: nat): nat {
    var state := point.state;
    var exhausted := Exhausted(state, budget);
    match point.node
    case PrepareContext => 2 + LeftAtCall(budget, state.modelCalls, state.toolCalls, exhausted, most)
    case CompressContext =>
      if state.compressionReason != Some(ContextLengthReported) then
        1 + LeftAtCall(budget, state.modelCalls, state.toolCalls, exhausted, most)
      else if state.modelCalls + 1 < budget.modelCalls then
        1 + LeftAtCall(budget, state.modelCalls + 1, state.toolCalls, exhausted, most)
      else 2
    case CallModel => LeftAtCall(budget, state.modelCalls, state.toolCalls, exhausted, most)
    case ExecuteOneTool =>
      Unanswered(state)
      + LeftAtCall(budget, state.modelCalls, state.toolCalls + Unanswered(state), exhausted, most)
    case Finalize => 1
    case End => 0
  }

  /** Further on, less is left. */
  lemma LessIsLeft(
    budget: TurnBudget, modelCalls: nat, later: nat, toolCalls: nat, exhausted: bool, nowExhausted: bool, most: nat)
    requires modelCalls <= later && (exhausted ==> nowExhausted)
    ensures LeftAtCall(budget, later, toolCalls, nowExhausted, most)
            <= LeftAtCall(budget, modelCalls, toolCalls, exhausted, most)
    ensures modelCalls < later && modelCalls < budget.modelCalls ==>
              LeftAtCall(budget, later, toolCalls, nowExhausted, most)
              < LeftAtCall(budget, modelCalls, toolCalls, exhausted, most)
  {
    if later < budget.modelCalls {
      DeliveredGrows(budget.modelCalls - 1 - later, budget.modelCalls - 1 - modelCalls, most);
    }
  }

  /** A turn with at most `most` calls takes those calls and its own step from what was left. */
  lemma TurnTakesItsCalls(
    budget: TurnBudget, modelCalls: nat, later: nat, toolCalls: nat, calls: nat, nowExhausted: bool, most: nat)
    requires modelCalls + 1 < budget.modelCalls && modelCalls < later && toolCalls < budget.toolCalls && calls <= most
    ensures calls + LeftAtCall(budget, later, toolCalls + calls, nowExhausted, most)
            < LeftAtCall(budget, modelCalls, toolCalls, false, most)
  {
    var turns: nat := budget.modelCalls - 1 - modelCalls;
    DeliveredGrows(1, turns, most);
    assert Delivered(1, most) == Delivered(0, most) + most == most;
    if later + 1 < budget.modelCalls {
      DeliveredGrows(budget.modelCalls - 1 - later, turns - 1, most);
    }
  }

  /** A turn read from a stream is one of its events. */
  lemma {:induction false} ReadTurnsCarryAtMost(
    stream: Stream, budget: TurnBudget, events: seq<GatewayEvent>, most: nat)
    requires forall turn :: turn in stream.completed ==> |turn.toolCalls| <= most
    requires EventsCarryAtMost(events, most)
    ensures forall turn :: turn in ReadEvents(stream, budget, events).completed ==> |turn.toolCalls| <= most
    decreases |events|
  {
    if events != [] && stream.blocked.None? {
      assert events[0] in events;
      ReadTurnsCarryAtMost(ReadEvent(stream, budget, events[0]), budget, events[1..], most);
    }
  }

  /**
   A call goes to the end; or reports an overflow; or opens a batch, and then it was not
   the last one budgeted and nothing was exhausted.
   */
  lemma CallOpensOrEnds(
    estimator: Message -> nat, budget: TurnBudget, state: AgentState, history: History, answer: Answer, most: nat)
    requires Invariant(estimator, budget, Point(CallModel, state), history) && answer.ModelAnswer?
    requires CarriesAtMost(answer, most)
    ensures var after := CallModelNode(estimator, state, budget, answer).0;
            match RouteAfterModel(after)
            case ExecuteOneTool =>
              && state.modelCalls + 1 < budget.modelCalls && state.modelCalls < after.modelCalls
              && !Exhausted(state, budget) && Unanswered(after) <= most
            case CompressContext =>
              && state.modelCalls < budget.modelCalls && state.modelCalls < after.modelCalls
              && after.compressionReason == Some(ContextLengthReported)
            case Finalize => true
            case _ => false
  {
    var after := CallModelNode(estimator, state, budget, answer).0;
    var next := CallStep(estimator, budget, state, history, answer);
    CallEndings(estimator, budget, state, answer);
    AcceptedTurnCarriesAtMost(state, budget, answer, most);
    OverflowReason(estimator, budget, state, answer);
    CallIsAccounted(estimator, budget, state, history, answer);
    hide CallModelNode, SucceededTurn, Linked, InStep, LastComplete, CarriesAtMost, WithinBudget, CallDecision;
    LastCallIsReserved(state, budget, answer);
  }

  lemma LastCallIsReserved(state: AgentState, budget: TurnBudget, answer: Answer)
    requires answer.ModelAnswer?
    ensures var decision := CallDecision(ClearFinishedBatch(state), budget, answer.toolsAvailable);
            decision.allowed && !decision.reservedFinal ==>
              state.modelCalls + 1 < budget.modelCalls && !Exhausted(state, budget)
    ensures SucceededTurn(state, budget, answer).Some? ==>
              CallDecision(ClearFinishedBatch(state), budget, answer.toolsAvailable).allowed
  {
    hide AcceptedTurn, StreamFrom, Requesting;
  }

  lemma CallRunsNoTool(estimator: Message -> nat, budget: TurnBudget, state: AgentState, answer: Answer)
    requires answer.ModelAnswer?
    ensures CallModelNode(estimator, state, budget, answer).0.toolCalls == state.toolCalls
  {
    hide StreamFrom, DispatchableAndFresh, CallDecision;
  }

  lemma OverflowReason(estimator: Message -> nat, budget: TurnBudget, state: AgentState, answer: Answer)
    requires answer.ModelAnswer? && !state.compressionRequested
    ensures var after := CallModelNode(estimator, state, budget, answer).0;
            after.compressionRequested ==> after.compressionReason == Some(ContextLengthReported)
  {
    hide StreamFrom, DispatchableAndFresh;
  }

  lemma AcceptedTurnCarriesAtMost(state: AgentState, budget: TurnBudget, answer: Answer, most: nat)
    requires answer.ModelAnswer? && CarriesAtMost(answer, most)
    ensures var turn := SucceededTurn(state, budget, answer); turn.Some? ==> |turn.value.toolCalls| <= most
  {
    var requesting := Requesting(ClearFinishedBatch(state), budget, answer.toolsAvailable);
    var start := Stream(requesting.modelCalls + 1, requesting.providerRetries, 0, "", [], None, None);
    ReadTurnsCarryAtMost(start, budget, answer.events, most);
    hide DispatchableAndFresh;
  }

  lemma CompressionRouting(
    estimator: Message -> nat, state: AgentState, budget: TurnBudget, compaction: Compaction)
    requires state.termination.None?
    ensures var after := CompressContextNode(estimator, state, budget, compaction);
            && after.modelCalls >= state.modelCalls && after.toolCalls == state.toolCalls
            && (Exhausted(state, budget) ==> Exhausted(after, budget))
            && (state.compressionReason == Some(ContextLengthReported) && RouteAfterCompression(after).CallModel? ==>
                  state.modelCalls + 1 < budget.modelCalls && after.modelCalls > state.modelCalls)
  {
  }

  lemma StepUsesOne(
    estimator: Message -> nat, budget: TurnBudget, point: Point, history: History, answer: Answer, most: nat)
    requires budget.Valid() && Invariant(estimator, budget, point, history) && !point.node.End?
    requires Allowed(estimator, budget, point, answer) && CarriesAtMost(answer, most)
    ensures StepsLeft(budget, Step(estimator, budget, point, answer).0, most) < StepsLeft(budget, point, most)
  {
    var state := point.state;
    match point.node {
      case CallModel => CallUsesOne(estimator, budget, state, history, answer, most);
      case CompressContext => CompressionUsesOne(estimator, budget, state, answer.compaction, most);
      case ExecuteOneTool => ToolUsesOne(estimator, budget, state, answer, most);
      case _ =>
        hide CallModelNode, CompressContextNode, Linked, InStep, LastComplete, LeftAtCall, CarriesAtMost;
        LeavesSomething(budget, state.modelCalls, state.toolCalls, Exhausted(state, budget), most);
    }
  }

  lemma LeavesSomething(budget: TurnBudget, modelCalls: nat, toolCalls: nat, exhausted: bool, most: nat)
    ensures LeftAtCall(budget, modelCalls, toolCalls, exhausted, most) >= 2
  {
  }

  lemma CompressionUsesOne(
    estimator: Message -> nat, budget: TurnBudget, state: AgentState, compaction: Compaction, most: nat)
    requires state.termination.None?
    ensures var after := CompressContextNode(estimator, state, budget, compaction);
            StepsLeft(budget, Point(RouteAfterCompression(after), after), most)
            < StepsLeft(budget, Point(CompressContext, state), most)
  {
    CompressionRouting(estimator, state, budget, compaction);
    hide CompressContextNode, LeftAtCall, LoopExhaustion;
    var after := CompressContextNode(estimator, state, budget, compaction);
    var before, now := Exhausted(state, budget), Exhausted(after, budget);
    LeavesSomething(budget, state.modelCalls, state.toolCalls, before, most);
    LeavesSomething(budget, state.modelCalls + 1, state.toolCalls, before, most);
    LessIsLeft(budget, state.modelCalls, after.modelCalls, state.toolCalls, before, now, most);
    if after.modelCalls > state.modelCalls {
      LessIsLeft(budget, state.modelCalls + 1, after.modelCalls, state.toolCalls, before, now, most);
    }
  }

  lemma ToolUsesOne(estimator: Message -> nat, budget: TurnBudget, state: AgentState, answer: Answer, most: nat)
    requires answer.ToolAnswer? && state.nextToolIndex < |state.pending|
    ensures var after := ExecuteOneToolNode(estimator, state, budget, answer).0;
            StepsLeft(budget, Point(RouteAfterTool(after), after), most)
            < StepsLeft(budget, Point(ExecuteOneTool, state), most)
  {
    var after := ExecuteOneToolNode(estimator, state, budget, answer).0;
    assert Unanswered(after) == Unanswered(state) - 1 && after.modelCalls == state.modelCalls;
    assert Exhausted(state, budget) ==> Exhausted(after, budget) && after.toolCalls == state.toolCalls;
    assert !Exhausted(state, budget) ==> after.toolCalls == state.toolCalls + 1;
    hide ExecuteOneToolNode, LoopExhaustion, Delivered, ToolsLeft;
    LessIsLeft(
      budget, state.modelCalls, state.modelCalls, state.toolCalls + Unanswered(state),
      Exhausted(state, budget), Exhausted(after, budget), most);
  }

  lemma CallUsesOne(
    estimator: Message -> nat, budget: TurnBudget, state: AgentState, history: History, answer: Answer, most: nat)
    requires budget.Valid() && Invariant(estimator, budget, Point(CallModel, state), history)
    requires answer.ModelAnswer? && answer.elapsed >= 0.0 && CarriesAtMost(answer, most)
    ensures var after := CallModelNode(estimator, state, budget, answer).0;
            StepsLeft(budget, Point(RouteAfterModel(after), after), most)
            < StepsLeft(budget, Point(CallModel, state), most)
  {
    CallOpensOrEnds(estimator, budget, state, history, answer, most);
    CallRunsNoTool(estimator, budget, state, answer);
    var before := Exhausted(state, budget);
    if before {
      ExhaustedCall(estimator, budget, state, answer);
    }
    LeavesSomething(budget, state.modelCalls, state.toolCalls, before, most);
    assert !before ==> state.toolCalls < budget.toolCalls;
    hide CallModelNode, Invariant, CarriesAtMost, LoopExhaustion, LeftAtCall;
    var after := CallModelNode(estimator, state, budget, answer).0;
    var now := Exhausted(after, budget);
    match RouteAfterModel(after) {
      case ExecuteOneTool =>
        TurnTakesItsCalls(
          budget, state.modelCalls, after.modelCalls, state.toolCalls, Unanswered(after), now, most);
      case CompressContext => OverflowUsesOne(budget, state, after.modelCalls, before, now, most);
      case _ =>
    }
  }

  lemma OverflowUsesOne(
    budget: TurnBudget, state: AgentState, later: nat, before: bool, now: bool, most: nat)
    requires state.modelCalls < later && state.modelCalls < budget.modelCalls && (before ==> now)
    ensures var left := LeftAtCall(budget, state.modelCalls, state.toolCalls, before, most);
            if later + 1 < budget.modelCalls
            then 1 + LeftAtCall(budget, later + 1, state.toolCalls, now, most) < left else 2 < left
  {
    LessIsLeft(budget, state.modelCalls, later, state.toolCalls, before, now, most);
    if later + 1 < budget.modelCalls {
      LessIsLeft(budget, later, later + 1, state.toolCalls, now, now, most);
    }
  }

  /**
   The steps of the longest run: prepare, compress, every budgeted call, an overflow of the
   last one, finalize, and the tool calls of all turns but the reserved one.
   */
  function LongestRun(modelCalls: nat, toolCalls: nat, most: nat): int {
    var full, budgeted := (modelCalls - 1) * most, toolCalls - 1 + most;
    modelCalls + 4 + (if full < budgeted then full else budgeted)
  }

  lemma AllIsLeftAtStart(budget: TurnBudget, most: nat)
    requires budget.Valid()
    ensures StepsLeft(budget, START, most) == LongestRun(budget.modelCalls, budget.toolCalls, most)
  {
    DeliveredIs(budget.modelCalls - 1, most);
    assert budget.modelCalls == 1 ==> (budget.modelCalls - 1) * most == 0;
  }

  /** Until the end every step uses up one of the longest run's. */
  lemma {:induction false} LongestRunBounds(
    estimator: Message -> nat, budget: TurnBudget, answers: seq<Answer>, most: nat)
    requires budget.Valid() && AllowedRun(estimator, budget, answers) && TurnsCarryAtMost(answers, most)
    requires !PointAfter(estimator, budget, answers).node.End?
    ensures |answers| + StepsLeft(budget, PointAfter(estimator, budget, answers), most)
            <= LongestRun(budget.modelCalls, budget.toolCalls, most)
    decreases |answers|
  {
    if answers == [] {
      AllIsLeftAtStart(budget, most);
    } else {
      var earlier, last := answers[..|answers| - 1], answers[|answers| - 1];
      LastStep(estimator, budget, answers);
      assert last in answers && TurnsCarryAtMost(earlier, most);
      var before := RunKeepsInvariant(estimator, budget, earlier);
      assert !PointAfter(estimator, budget, earlier).node.End?;
      hide Step, Allowed, AllowedRun, PointAfter, StepsLeft, LongestRun;
      LongestRunBounds(estimator, budget, earlier, most);
      StepUsesOne(estimator, budget, PointAfter(estimator, budget, earlier), before, last, most);
    }
  }

  // ---- a run that is cut off ------------------------------------------------------

  const ID_DIGITS: nat := 7

  function Calls(first: nat, count: nat): (calls: seq<ToolCall>)
    ensures |calls| == count
  {
    if count == 0 then [] else Calls(first, count - 1) + [ToolCall(Decimal(first + count - 1), "f", "{}")]
  }

  lemma {:induction false} CallAt(first: nat, count: nat, i: nat)
    requires i < count
    ensures Calls(first, count)[i] == ToolCall(Decimal(first + i), "f", "{}")
  {
    if i < count - 1 {
      CallAt(first, count - 1, i);
    }
  }

  function LongTurn(calls: seq<ToolCall>): ModelTurn {
    ModelTurn("", calls, StopToolCalls, 0)
  }

  function Delivering(calls: seq<ToolCall>): Answer {
    ModelAnswer(true, [TurnCompleted(LongTurn(calls))], None, 0.0)
  }

  function Resulting(k: nat): Answer {
    ToolAnswer(true, ToolResult(Decimal(k), "f", Success, "", None), 0.0)
  }

  /** One more turn with `most` calls, and the results of the first `answered` of them. */
  function OneTurn(earlier: seq<Answer>, first: nat, most: nat, answered: nat): seq<Answer> {
    if answered == 0 then earlier + [Delivering(Calls(first, most))]
    else OneTurn(earlier, first, most, answered - 1) + [Resulting(first + answered - 1)]
  }

  function Sum(sizes: seq<nat>): nat {
    if sizes == [] then 0 else Sum(sizes[..|sizes| - 1]) + sizes[|sizes| - 1]
  }

  /** A context whose compression is recommended and does nothing, and turns of these sizes. */
  function LongRun(estimator: Message -> nat, sizes: seq<nat>): seq<Answer> {
    if sizes == [] then [Recommending(estimator)] + [CompressAnswer(Noop)]
    else
      var earlier, size := sizes[..|sizes| - 1], sizes[|sizes| - 1];
      OneTurn(LongRun(estimator, earlier), Sum(earlier), size, size)
  }

  function Recommending(estimator: Message -> nat): Answer {
    PrepareAnswer(Prepared([UserMessage("")], ["user"], Estimate(estimator, [UserMessage("")]), 0, true))
  }

  /** `used` calls have been answered in so many turns, as many of them by tools as the budget has. */
  predicate Progressed(budget: TurnBudget, state: AgentState, turns: nat, used: nat) {
    && state.modelCalls == turns && state.toolCalls == Min(used, budget.toolCalls) && state.activeSeconds == 0.0
    && !state.compressionRequested
    && Numbered(state.toolResults, used)
  }

  predicate Numbered(results: seq<ToolResult>, used: nat) {
    |results| == used && forall k :: 0 <= k < used ==> results[k].callId == Decimal(k)
  }

  predicate MidTurn(budget: TurnBudget, point: Point, turns: nat, first: nat, most: nat, answered: nat) {
    && Progressed(budget, point.state, turns, first + answered)
    && point.state.pending == Calls(first, most) && point.state.nextToolIndex == answered <= most
    && point.node == if answered < most then ExecuteOneTool else CallModel
  }

  lemma NumberedCallsAreFresh(first: nat, most: nat, results: seq<ToolResult>)
    requires first + most <= Power10(ID_DIGITS) && Numbered(results, first)
    ensures DispatchableAndFresh(Calls(first, most), results)
  {
    hide Calls, Decimal, Power10, ToolNameDispatches;
    assert ToolNameDispatches("f") by {
      CallIsDispatchable();
    }
    var calls := Calls(first, most);
    forall i | 0 <= i < most
      ensures calls[i].name == "f" && calls[i].callId == Decimal(first + i) && 1 <= |Decimal(first + i)| <= 128
    {
      CallAt(first, most, i);
      DecimalLength(first + i, ID_DIGITS);
    }
    NumbersAreDistinct();
  }

  lemma NumbersAreDistinct()
    ensures forall m: nat, n: nat :: Decimal(m) == Decimal(n) ==> m == n
  {
    hide Decimal;
    forall m: nat, n: nat | Decimal(m) == Decimal(n)
      ensures m == n
    {
      DecimalInjective(m, n);
    }
  }

  lemma LongTurnDelivers(state: AgentState, budget: TurnBudget, calls: seq<ToolCall>)
    ensures StreamFrom(state, budget, [TurnCompleted(LongTurn(calls))])
         == Stream(state.modelCalls + 1, state.providerRetries, 0, "", [LongTurn(calls)], None, None)
  {
    var start := Stream(state.modelCalls + 1, state.providerRetries, 0, "", [], None, None);
    var read := ReadEvent(start, budget, TurnCompleted(LongTurn(calls)));
    assert [TurnCompleted(LongTurn(calls))][1..] == [];
    assert ReadEvents(read, budget, []) == read == start.(completed := [] + [LongTurn(calls)]);
  }

  lemma TurnOpens(
    estimator: Message -> nat, budget: TurnBudget, state: AgentState, turns: nat, first: nat, most: nat)
    requires budget.Valid() && Progressed(budget, state, turns, first) && state.nextToolIndex >= |state.pending|
    requires turns + 1 < budget.modelCalls && first < budget.toolCalls
    requires most > 0 && first + most <= Power10(ID_DIGITS)
    ensures var after := CallModelNode(estimator, state, budget, Delivering(Calls(first, most))).0;
            MidTurn(budget, Point(RouteAfterModel(after), after), turns + 1, first, most, 0)
  {
    var cleared := ClearFinishedBatch(state);
    LongTurnDelivers(Requesting(cleared, budget, true), budget, Calls(first, most));
    NumberedCallsAreFresh(first, most, state.toolResults);
    hide Calls, Decimal, DispatchableAndFresh, StreamFrom, Estimate, Power10, Numbered;
    assert RecordTurn(
        estimator, cleared, StreamFrom(cleared, budget, [TurnCompleted(LongTurn(Calls(first, most)))]),
        LongTurn(Calls(first, most)), false).pending == Calls(first, most);
  }

  lemma CallIsAnswered(
    estimator: Message -> nat, budget: TurnBudget, point: Point, turns: nat, first: nat, most: nat, answered: nat)
    requires budget.Valid() && MidTurn(budget, point, turns, first, most, answered) && answered < most
    requires turns < budget.modelCalls
    ensures var after := ExecuteOneToolNode(estimator, point.state, budget, Resulting(first + answered)).0;
            MidTurn(budget, Point(RouteAfterTool(after), after), turns, first, most, answered + 1)
    ensures point.state.pending[answered].callId == Decimal(first + answered)
  {
    CallAt(first, most, answered);
    hide Calls, Decimal, ExecuteOneToolNode, Numbered;
    OneCallIsAnswered(estimator, budget, point.state, Resulting(first + answered));
  }

  /** A call is answered with its own id, by a tool or by a refusal. */
  lemma OneCallIsAnswered(estimator: Message -> nat, budget: TurnBudget, state: AgentState, answer: Answer)
    requires answer.ToolAnswer? && answer.elapsed == 0.0 && state.nextToolIndex < |state.pending|
    requires answer.result.callId == state.pending[state.nextToolIndex].callId
    requires state.modelCalls < budget.modelCalls && state.activeSeconds < budget.activeSeconds
    ensures var after := ExecuteOneToolNode(estimator, state, budget, answer).0;
            && after.pending == state.pending && after.nextToolIndex == state.nextToolIndex + 1
            && after.modelCalls == state.modelCalls && after.activeSeconds == state.activeSeconds
            && after.compressionRequested == state.compressionRequested
            && after.toolCalls
               == (if state.toolCalls >= budget.toolCalls then state.toolCalls else state.toolCalls + 1)
            && forall used: nat :: Numbered(state.toolResults, used) && answer.result.callId == Decimal(used) ==>
                 Numbered(after.toolResults, used + 1)
  {
    hide Decimal;
  }

  predicate AtRest(budget: TurnBudget, point: Point, turns: nat, used: nat) {
    && point.node.CallModel? && Progressed(budget, point.state, turns, used)
    && point.state.nextToolIndex >= |point.state.pending|
  }

  lemma TurnBegins(
    estimator: Message -> nat, budget: TurnBudget, earlier: seq<Answer>, turns: nat, first: nat, most: nat)
    requires budget.Valid() && AllowedRun(estimator, budget, earlier)
    requires AtRest(budget, PointAfter(estimator, budget, earlier), turns, first)
    requires turns + 1 < budget.modelCalls && first < budget.toolCalls
    requires most > 0 && first + most <= Power10(ID_DIGITS)
    ensures var answers := earlier + [Delivering(Calls(first, most))];
            && AllowedRun(estimator, budget, answers)
            && MidTurn(budget, PointAfter(estimator, budget, answers), turns + 1, first, most, 0)
  {
    hide AllowedRun, PointAfter, MidTurn, Progressed, Calls, CallModelNode, Power10;
    OneMoreStep(estimator, budget, earlier, Delivering(Calls(first, most)));
    TurnOpens(estimator, budget, PointAfter(estimator, budget, earlier).state, turns, first, most);
  }

  lemma TurnGoesOn(
    estimator: Message -> nat, budget: TurnBudget, before: seq<Answer>, turns: nat, first: nat, most: nat,
    answered: nat)
    requires budget.Valid() && AllowedRun(estimator, budget, before) && answered < most
    requires MidTurn(budget, PointAfter(estimator, budget, before), turns, first, most, answered)
    requires turns < budget.modelCalls
    ensures var answers := before + [Resulting(first + answered)];
            && AllowedRun(estimator, budget, answers)
            && MidTurn(budget, PointAfter(estimator, budget, answers), turns, first, most, answered + 1)
  {
    hide AllowedRun, PointAfter, Progressed, Calls, ExecuteOneToolNode, Decimal;
    CallIsAnswered(estimator, budget, PointAfter(estimator, budget, before), turns, first, most, answered);
    OneMoreStep(estimator, budget, before, Resulting(first + answered));
  }

  lemma {:induction false} TurnIsAnswered(
    estimator: Message -> nat, budget: TurnBudget, earlier: seq<Answer>, turns: nat, first: nat, most: nat,
    answered: nat)
    requires budget.Valid() && AllowedRun(estimator, budget, earlier) && answered <= most
    requires AtRest(budget, PointAfter(estimator, budget, earlier), turns, first)
    requires turns + 1 < budget.modelCalls && first < budget.toolCalls
    requires most > 0 && first + most <= Power10(ID_DIGITS)
    ensures var answers := OneTurn(earlier, first, most, answered);
            && AllowedRun(estimator, budget, answers) && |answers| == |earlier| + 1 + answered
            && MidTurn(budget, PointAfter(estimator, budget, answers), turns + 1, first, most, answered)
    decreases answered
  {
    hide AllowedRun, PointAfter, MidTurn, AtRest, Calls, Power10, Delivering, Resulting;
    if answered == 0 {
      TurnBegins(estimator, budget, earlier, turns, first, most);
    } else {
      TurnIsAnswered(estimator, budget, earlier, turns, first, most, answered - 1);
      TurnGoesOn(
        estimator, budget, OneTurn(earlier, first, most, answered - 1), turns + 1, first, most, answered - 1);
    }
  }

  lemma LongRunBegins(estimator: Message -> nat, budget: TurnBudget)
    requires budget.Valid()
    ensures AllowedRun(estimator, budget, LongRun(estimator, []))
    ensures AtRest(budget, PointAfter(estimator, budget, LongRun(estimator, [])), 0, 0)
  {
    OneMoreStep(estimator, budget, [], Recommending(estimator));
    assert [] + [Recommending(estimator)] == [Recommending(estimator)];
    OneMoreStep(estimator, budget, [Recommending(estimator)], CompressAnswer(Noop));
    var prepared := PointAfter(estimator, budget, [Recommending(estimator)]).state;
    assert ActiveTurnToolTail(prepared) == Some([]) by {
      assert prepared.messages[|prepared.manifest|..] == [];
    }
  }

  /** Sizes that some turns can have one after the other: none is empty, and tools are left before the last. */
  predicate MayFollow(budget: TurnBudget, sizes: seq<nat>, most: nat) {
    && |sizes| < budget.modelCalls && Sum(sizes) <= Power10(ID_DIGITS)
    && (forall i :: 0 <= i < |sizes| ==> 1 <= sizes[i] <= most)
    && (sizes != [] ==> Sum(sizes[..|sizes| - 1]) < budget.toolCalls)
  }

  lemma EarlierMayFollow(budget: TurnBudget, sizes: seq<nat>, most: nat)
    requires sizes != [] && MayFollow(budget, sizes, most)
    ensures MayFollow(budget, sizes[..|sizes| - 1], most)
  {
  }

  /** Turns with all their calls, one after the other, while both budgets last. */
  lemma {:induction false} LongRunIsAllowed(
    estimator: Message -> nat, budget: TurnBudget, sizes: seq<nat>, most: nat)
    requires budget.Valid() && MayFollow(budget, sizes, most)
    ensures var answers := LongRun(estimator, sizes);
            && AllowedRun(estimator, budget, answers) && |answers| == 2 + |sizes| + Sum(sizes)
            && TurnsCarryAtMost(answers, most)
            && AtRest(budget, PointAfter(estimator, budget, answers), |sizes|, Sum(sizes))
    decreases |sizes|
  {
    if sizes == [] {
      LongRunBegins(estimator, budget);
    } else {
      var earlier, size := sizes[..|sizes| - 1], sizes[|sizes| - 1];
      EarlierMayFollow(budget, sizes, most);
      assert size == sizes[|sizes| - 1] >= 1;
      hide AllowedRun, PointAfter, Progressed, Power10;
      LongRunIsAllowed(estimator, budget, earlier, most);
      TurnIsAnswered(estimator, budget, LongRun(estimator, earlier), |earlier|, Sum(earlier), size, size);
      OneTurnCarries(LongRun(estimator, earlier), Sum(earlier), size, size, most);
    }
  }

  lemma {:induction false} OneTurnCarries(
    earlier: seq<Answer>, first: nat, size: nat, answered: nat, most: nat)
    requires TurnsCarryAtMost(earlier, most) && size <= most
    ensures TurnsCarryAtMost(OneTurn(earlier, first, size, answered), most)
  {
    if answered > 0 {
      OneTurnCarries(earlier, first, size, answered - 1, most);
    }
  }

  /** The reserved call may overflow; the graph gives up, and has still to finalize. */
  lemma OverflowAtRest(estimator: Message -> nat, budget: TurnBudget, answers: seq<Answer>, turns: nat, used: nat)
    requires budget.Valid() && AllowedRun(estimator, budget, answers) && turns < budget.modelCalls
    requires AtRest(budget, PointAfter(estimator, budget, answers), turns, used)
    ensures var more := answers + [OVERFLOWING];
            && AllowedRun(estimator, budget, more) && PointAfter(estimator, budget, more).node.CompressContext?
            && AllowedRun(estimator, budget, more + [CompressAnswer(Noop)])
            && PointAfter(estimator, budget, more + [CompressAnswer(Noop)]).node.Finalize?
  {
    hide AllowedRun, PointAfter;
    AfterOverflowing(estimator, budget, PointAfter(estimator, budget, answers).state);
    OneMoreStep(estimator, budget, answers, OVERFLOWING);
    OneMoreStep(estimator, budget, answers + [OVERFLOWING], CompressAnswer(Noop));
    OverflowReason(estimator, budget, PointAfter(estimator, budget, answers).state, OVERFLOWING);
  }

  /** So many turns with so many calls in all, none empty and none with more than `most`. */
  lemma {:induction false} SizesExist(turns: nat, total: nat, most: nat) returns (sizes: seq<nat>)
    requires turns <= total <= Delivered(turns, most) && most >= 1
    ensures |sizes| == turns && Sum(sizes) == total
    ensures forall i :: 0 <= i < |sizes| ==> 1 <= sizes[i] <= most
  {
    if turns == 0 {
      sizes := [];
    } else {
      var last := Min(most, total - (turns - 1));
      DeliveredIsEnough(turns - 1, most);
      var earlier := SizesExist(turns - 1, total - last, most);
      sizes := earlier + [last];
      assert sizes[..|sizes| - 1] == earlier;
    }
  }

  /** The turns that may call tools: those before the reserved one, while each finds a tool call budgeted. */
  function CallingTurns(budget: TurnBudget): nat {
    Min(Max0(budget.modelCalls - 1), budget.toolCalls)
  }

  /** Sizes of turns that together take the graph to the limit. */
  lemma EnoughTurns(budget: TurnBudget, most: nat) returns (sizes: seq<nat>)
    requires budget.Valid() && most >= 1
    requires LongestRun(CallingTurns(budget) + 1, budget.toolCalls, most) > RECURSION_LIMIT
    ensures MayFollow(budget, sizes, most) && 4 + |sizes| + Sum(sizes) >= RECURSION_LIMIT
  {
    var all := CallingTurns(budget);
    var turns, last := Min(all, RECURSION_LIMIT), Min(most, RECURSION_LIMIT);
    assert all == 0 ==> all * most == 0;
    FrontHolds(all, turns, most);
    var front := Min(Min(Delivered(turns - 1, last), budget.toolCalls - 1), RECURSION_LIMIT);
    DeliveredIsEnough(turns - 1, last);
    var earlier := SizesExist(turns - 1, front, last);
    sizes := earlier + [last];
    assert sizes[..|sizes| - 1] == earlier;
    assert Power10(ID_DIGITS) == 10_000_000;
  }

  lemma {:induction false} DeliveredIsEnough(turns: nat, most: nat)
    requires most >= 1
    ensures turns <= Delivered(turns, most)
  {
    if turns > 0 {
      DeliveredIsEnough(turns - 1, most);
    }
  }

  lemma FrontHolds(all: nat, turns: nat, most: nat)
    requires 1 <= turns <= all
    ensures turns == all ==> Delivered(turns - 1, most) + most == all * most
  {
    DeliveredIs(turns, most);
  }

  /** A run that has not ended when the limit is reached. */
  lemma SomeRunIsCutOff(estimator: Message -> nat, budget: TurnBudget, most: nat) returns (answers: seq<Answer>)
    requires budget.Valid() && most >= 1
    requires LongestRun(CallingTurns(budget) + 1, budget.toolCalls, most) > RECURSION_LIMIT
    ensures AllowedRun(estimator, budget, answers) && TurnsCarryAtMost(answers, most)
    ensures |answers| >= RECURSION_LIMIT && !PointAfter(estimator, budget, answers).node.End?
  {
    var sizes := EnoughTurns(budget, most);
    LongRunIsAllowed(estimator, budget, sizes, most);
    var run := LongRun(estimator, sizes);
    OverflowAtRest(estimator, budget, run, |sizes|, Sum(sizes));
    answers := run + [OVERFLOWING] + [CompressAnswer(Noop)];
    forall answer | answer in answers
      ensures CarriesAtMost(answer, most)
    {
      assert answer in run ==> CarriesAtMost(answer, most);
    }
  }

  /** Whatever is answered, the graph has ended, with a reason, when the limit is reached. */
  ghost predicate AlwaysEnds(budget: TurnBudget, most: nat) {
    forall estimator: Message -> nat, answers: seq<Answer> |
      && |answers| >= RECURSION_LIMIT
      && AllowedRun(estimator, budget, answers) && TurnsCarryAtMost(answers, most) ::
      EndedWithReason(PointAfter(estimator, budget, answers))
  }

  predicate EndedWithReason(point: Point) {
    point.node.End? && point.state.termination.Some?
  }

  /**
   The limit is enough when the longest run fits it, where no turn carries more than `most`
   tool calls; and only when the run that uses every turn that may call tools fits it. That
   is the longest run, so the two are one condition, unless the budget has model calls left
   over that no tool call is budgeted for.
   */
  lemma RecursionLimitSuffices(budget: TurnBudget, most: nat)
    requires budget.Valid() && most >= 1
    ensures LongestRun(budget.modelCalls, budget.toolCalls, most) <= RECURSION_LIMIT ==> AlwaysEnds(budget, most)
    ensures AlwaysEnds(budget, most) ==>
              LongestRun(CallingTurns(budget) + 1, budget.toolCalls, most) <= RECURSION_LIMIT
    ensures budget.modelCalls <= budget.toolCalls + 1 ==>
              (AlwaysEnds(budget, most)
               <==> LongestRun(budget.modelCalls, budget.toolCalls, most) <= RECURSION_LIMIT)
  {
    if LongestRun(budget.modelCalls, budget.toolCalls, most) <= RECURSION_LIMIT {
      forall estimator: Message -> nat, answers: seq<Answer> |
        && |answers| >= RECURSION_LIMIT
        && AllowedRun(estimator, budget, answers) && TurnsCarryAtMost(answers, most)
        ensures EndedWithReason(PointAfter(estimator, budget, answers))
      {
        EndedByTheLimit(estimator, budget, answers, most);
      }
    }
    if LongestRun(CallingTurns(budget) + 1, budget.toolCalls, most) > RECURSION_LIMIT {
      var answers := SomeRunIsCutOff(_ => 1, budget, most);
      assert !EndedWithReason(PointAfter(_ => 1, budget, answers));
    }
  }

  lemma EndedByTheLimit(estimator: Message -> nat, budget: TurnBudget, answers: seq<Answer>, most: nat)
    requires budget.Valid()
    requires LongestRun(budget.modelCalls, budget.toolCalls, most) <= RECURSION_LIMIT <= |answers|
    requires AllowedRun(estimator, budget, answers) && TurnsCarryAtMost(answers, most)
    ensures EndedWithReason(PointAfter(estimator, budget, answers))
  {
    var history := RunKeepsInvariant(estimator, budget, answers);
    var point := PointAfter(estimator, budget, answers);
    if !point.node.End? {
      EndIsAStep(budget, point, most);
      LongestRunBounds(estimator, budget, answers, most);
    }
  }

  lemma EndIsAStep(budget: TurnBudget, point: Point, most: nat)
    ensures !point.node.End? ==> StepsLeft(budget, point, most) >= 1
  {
    var state := point.state;
    LeavesSomething(budget, state.modelCalls, state.toolCalls, Exhausted(state, budget), most);
    LeavesSomething(
      budget, state.modelCalls, state.toolCalls + Unanswered(state), Exhausted(state, budget), most);
  }

  /** With the default budget that is: while no turn carries 1,950 tool calls. */
  lemma DefaultBudgetSuffices(budget: TurnBudget, most: nat)
    requires budget.Valid() && budget.modelCalls == 32 && budget.toolCalls == 64 && most >= 1
    ensures AlwaysEnds(budget, most) <==> most < 1_950
  {
    RecursionLimitSuffices(budget, most);
  }
}
