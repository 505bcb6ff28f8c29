/**
 Which message tails a resumed checkpoint may have. The checker re-derives how calls
 and results pair up from the raw messages; here that is shown to accept exactly the
 renderings of well-formed batch histories.
 */
module AgentTail {
  import opened Outcomes
  import opened AgentState

  /** One assistant message and the observations that have answered its calls so far. */
  datatype Batch = Batch(content: string, calls: seq<ToolCall>, observed: seq<Message>)

  /** The batches of a Turn, the latest outermost. */
  datatype History = Nothing | Then(earlier: History, last: Batch)

  predicate CallParses(call: ToolCall) {
    1 <= |call.callId| <= 256
  }

  predicate CallsParse(calls: seq<ToolCall>) {
    forall i | 0 <= i < |calls| :: CallParses(calls[i])
  }

  predicate MessageParses(message: Message) {
    match message
    case AssistantMessage(_, calls) => CallsParse(calls)
    case ToolResultMessage(callId, _, _, _) => 1 <= |callId| <= 256
    case _ => true
  }

  predicate MessagesParse(messages: seq<Message>) {
    forall i | 0 <= i < |messages| :: MessageParses(messages[i])
  }

  /** The observation message a tool result is recorded as. */
  function Observe(result: ToolResult): Message {
    ToolResultMessage(result.callId, result.content, result.status.Error?, [])
  }

  function IdSet(calls: seq<ToolCall>): set<string> {
    set i | 0 <= i < |calls| :: calls[i].callId
  }

  predicate DistinctIds(calls: seq<ToolCall>) {
    forall i, j | 0 <= i < j < |calls| :: calls[i].callId != calls[j].callId
  }

  function Render(history: History): seq<Message> {
    match history
    case Nothing => []
    case Then(earlier, last) => Render(earlier) + [AssistantMessage(last.content, last.calls)] + last.observed
  }

  function Observations(history: History): seq<Message> {
    match history
    case Nothing => []
    case Then(earlier, last) => Observations(earlier) + last.observed
  }

  function SeenIds(history: History): set<string> {
    match history
    case Nothing => {}
    case Then(earlier, last) => SeenIds(earlier) + IdSet(last.calls)
  }

  /** The observations answer a prefix of the calls, in order, one each. */
  predicate AnswersInOrder(batch: Batch) {
    && |batch.observed| <= |batch.calls|
    && forall i | 0 <= i < |batch.observed| :: Answers(batch.observed[i], batch.calls[i])
  }

  predicate Answers(message: Message, call: ToolCall) {
    message.ToolResultMessage? && message.callId == call.callId && message.artifactRefs == []
  }

  predicate Complete(batch: Batch) {
    batch.calls != [] && |batch.observed| == |batch.calls|
  }

  predicate LastComplete(history: History) {
    history.Nothing? || Complete(history.last)
  }

  /** Every batch but the last is fully answered, and no call id occurs twice. */
  predicate WellFormed(history: History) {
    match history
    case Nothing => true
    case Then(earlier, last) =>
      && WellFormed(earlier) && LastComplete(earlier)
      && CallsParse(last.calls) && AnswersInOrder(last)
      && DistinctIds(last.calls) && SeenIds(earlier) !! IdSet(last.calls)
  }

  function LastCalls(history: History): seq<ToolCall> {
    if history.Nothing? then [] else history.last.calls
  }

  function Answered(history: History): nat {
    if history.Nothing? then 0 else |history.last.observed|
  }

  predicate ResultsMatch(observations: seq<Message>, results: seq<ToolResult>) {
    && |results| == |observations|
    && forall i | 0 <= i < |results| :: observations[i] == Observe(results[i])
  }

  /** A checkpoint shape: a history, with the last batch pending from its first unanswered call. */
  ghost predicate ShapeOf(
    history: History, messages: seq<Message>, pending: seq<ToolCall>, nextToolIndex: nat, results: seq<ToolResult>)
  {
    && WellFormed(history)
    && messages == Render(history)
    && pending == LastCalls(history)
    && nextToolIndex == Answered(history)
    && ResultsMatch(Observations(history), results)
  }

  // ---- What the checker's loop computes -----------------------------------------

  datatype Scan = Scan(
    started: bool, outstanding: seq<ToolCall>, latest: seq<ToolCall>, seen: set<string>, observed: seq<Message>)

  function ScanMessage(scan: Scan, message: Message): Option<Scan> {
    match message
    case AssistantMessage(_, calls) =>
      if scan.outstanding != [] || (scan.started && scan.latest == []) then None
      else if !DistinctIds(calls) || !(scan.seen !! IdSet(calls)) then None
      else Some(Scan(true, calls, calls, scan.seen + IdSet(calls), scan.observed))
    case ToolResultMessage(_, _, _, _) =>
      if scan.outstanding == [] || !Answers(message, scan.outstanding[0]) then None
      else Some(scan.(outstanding := scan.outstanding[1..], observed := scan.observed + [message]))
    case _ => None
  }

  function ScanTail(messages: seq<Message>): Option<Scan> {
    if messages == [] then Some(Scan(false, [], [], {}, []))
    else
      match ScanTail(messages[..|messages| - 1])
      case None => None
      case Some(scan) => ScanMessage(scan, messages[|messages| - 1])
  }

  lemma ScanAppend(messages: seq<Message>, message: Message)
    ensures ScanTail(messages + [message]) ==
            if ScanTail(messages).None? then None else ScanMessage(ScanTail(messages).value, message)
  {
    assert (messages + [message])[..|messages|] == messages;
  }

  lemma {:induction false} RejectedPrefix(messages: seq<Message>, n: nat)
    requires n <= |messages| && ScanTail(messages[..n]).None?
    ensures ScanTail(messages).None?
    decreases |messages| - n
  {
    if n < |messages| {
      assert messages[..n + 1] == messages[..n] + [messages[n]];
      ScanAppend(messages[..n], messages[n]);
      RejectedPrefix(messages, n + 1);
    } else {
      assert messages[..n] == messages;
    }
  }

  predicate TailIsValid(
    messages: seq<Message>, pending: seq<ToolCall>, nextToolIndex: nat, results: seq<ToolResult>)
  {
    && MessagesParse(messages)
    && CallsParse(pending)
    && match ScanTail(messages)
       case None => false
       case Some(scan) =>
         && pending == scan.latest
         && nextToolIndex == |scan.latest| - |scan.outstanding|
         && ResultsMatch(scan.observed, results)
  }

  /** The scan has read exactly this history. */
  predicate Tracks(scan: Scan, history: History) {
    && scan.started == history.Then?
    && scan.latest == LastCalls(history)
    && Answered(history) <= |scan.latest|
    && scan.outstanding == scan.latest[Answered(history)..]
    && scan.seen == SeenIds(history)
    && scan.observed == Observations(history)
  }

  /** The history after its next call is answered by this message. */
  function WithAnswer(history: History, message: Message): History
    requires history.Then?
  {
    Then(history.earlier, history.last.(observed := history.last.observed + [message]))
  }

  lemma AnswerNext(history: History, message: Message)
    requires history.Then? && WellFormed(history)
    ensures Render(WithAnswer(history, message)) == Render(history) + [message]
    ensures Observations(WithAnswer(history, message)) == Observations(history) + [message]
    ensures WellFormed(WithAnswer(history, message)) <==>
              Answered(history) < |LastCalls(history)| && Answers(message, LastCalls(history)[Answered(history)])
  {
    var last := history.last;
    var answered := WithAnswer(history, message).last;
    assert forall i | 0 <= i < |last.observed| :: answered.observed[i] == last.observed[i];
    assert answered.observed[|last.observed|] == message;
    assert Observations(WithAnswer(history, message)) == Observations(history) + [message];
  }

  /** An assistant message is accepted exactly when it opens a new batch of the history. */
  lemma TrackAssistant(scan: Scan, history: History, batch: Batch)
    requires Tracks(scan, history) && WellFormed(history) && batch.observed == [] && CallsParse(batch.calls)
    ensures var next := ScanMessage(scan, AssistantMessage(batch.content, batch.calls));
            && (next.Some? <==> WellFormed(Then(history, batch)))
            && (next.Some? ==> Tracks(next.value, Then(history, batch)))
  {
  }

  /** A tool message is accepted exactly when it answers the next call of the last batch. */
  lemma TrackResult(scan: Scan, history: History, message: Message)
    requires Tracks(scan, history) && WellFormed(history) && message.ToolResultMessage?
    ensures var next := ScanMessage(scan, message);
            && (next.Some? <==> history.Then? && WellFormed(WithAnswer(history, message)))
            && (next.Some? ==> Tracks(next.value, WithAnswer(history, message)))
  {
    if history.Then? {
      AnswerNext(history, message);
      var n := Answered(history);
      if n < |scan.latest| {
        assert scan.outstanding[0] == scan.latest[n];
        assert scan.outstanding[1..] == scan.latest[n + 1..];
      }
    }
  }

  /** One accepted message extends the history behind the scan. */
  lemma ScanStepIsSound(scan: Scan, history: History, message: Message) returns (next: History)
    requires Tracks(scan, history) && WellFormed(history) && MessageParses(message)
    requires ScanMessage(scan, message).Some?
    ensures WellFormed(next) && Render(next) == Render(history) + [message]
    ensures Tracks(ScanMessage(scan, message).value, next)
  {
    if message.AssistantMessage? {
      var batch := Batch(message.content, message.toolCalls, []);
      TrackAssistant(scan, history, batch);
      next := Then(history, batch);
    } else {
      TrackResult(scan, history, message);
      AnswerNext(history, message);
      next := WithAnswer(history, message);
    }
  }

  /** Every accepted scan comes from a well-formed history. */
  lemma {:induction false} ScanIsSound(messages: seq<Message>) returns (history: History)
    requires ScanTail(messages).Some?
    requires MessagesParse(messages)
    ensures WellFormed(history) && Render(history) == messages && Tracks(ScanTail(messages).value, history)
  {
    if messages == [] {
      history := Nothing;
    } else {
      var shorter := messages[..|messages| - 1];
      var before := ScanIsSound(shorter);
      history := ScanStepIsSound(ScanTail(shorter).value, before, messages[|messages| - 1]);
    }
  }

  /** Every well-formed history is accepted, and the scan recovers what is left of it. */
  predicate Scans(history: History) {
    && ScanTail(Render(history)).Some?
    && Tracks(ScanTail(Render(history)).value, history)
    && MessagesParse(Render(history))
  }

  lemma ScansOpenedBatch(history: History)
    requires WellFormed(history) && history.Then? && history.last.observed == [] && Scans(history.earlier)
    ensures Scans(history)
  {
    ScanAppend(Render(history.earlier), AssistantMessage(history.last.content, history.last.calls));
    TrackAssistant(ScanTail(Render(history.earlier)).value, history.earlier, history.last);
    assert Render(history) == Render(history.earlier) + [AssistantMessage(history.last.content, history.last.calls)];
  }

  lemma ScansAnsweredBatch(before: History, message: Message)
    requires before.Then? && WellFormed(before) && WellFormed(WithAnswer(before, message)) && Scans(before)
    ensures Scans(WithAnswer(before, message))
  {
    AnswerNext(before, message);
    ScanAppend(Render(before), message);
    TrackResult(ScanTail(Render(before)).value, before, message);
    assert CallParses(LastCalls(before)[Answered(before)]);
  }

  lemma {:induction false} ScanIsComplete(history: History)
    requires WellFormed(history)
    ensures Scans(history)
    decreases history, Answered(history) + 1
  {
    if history.Then? {
      ScansUpTo(history, Answered(history));
    }
  }

  lemma {:induction false} ScansUpTo(history: History, n: nat)
    requires WellFormed(history) && history.Then? && n <= Answered(history)
    ensures Scans(FirstAnswers(history, n)) && WellFormed(FirstAnswers(history, n))
    ensures n == Answered(history) ==> FirstAnswers(history, n) == history
    decreases history, n
  {
    if n == 0 {
      ScanIsComplete(history.earlier);
      ScansOpenedBatch(FirstAnswers(history, 0));
    } else {
      ScansUpTo(history, n - 1);
      var message := history.last.observed[n - 1];
      assert history.last.observed[..n] == history.last.observed[..n - 1] + [message];
      AnswerNext(FirstAnswers(history, n - 1), message);
      ScansAnsweredBatch(FirstAnswers(history, n - 1), message);
    }
  }

  /** The history when only the first n answers of its last batch had arrived. */
  function FirstAnswers(history: History, n: nat): History
    requires history.Then? && n <= Answered(history)
  {
    Then(history.earlier, history.last.(observed := history.last.observed[..n]))
  }

  /** The checker accepts exactly the checkpoint shapes. */
  lemma AcceptedExactlyShapes(
    messages: seq<Message>, pending: seq<ToolCall>, nextToolIndex: nat, results: seq<ToolResult>)
    ensures TailIsValid(messages, pending, nextToolIndex, results)
            <==> exists history :: ShapeOf(history, messages, pending, nextToolIndex, results)
  {
    if TailIsValid(messages, pending, nextToolIndex, results) {
      var history := ScanIsSound(messages);
      assert ShapeOf(history, messages, pending, nextToolIndex, results);
    }
    if history :| ShapeOf(history, messages, pending, nextToolIndex, results) {
      ScanIsComplete(history);
      if history.Then? {
        assert CallsParse(history.last.calls);
      }
    }
  }

  /** A tail determines its history: how calls and results pair up is never ambiguous. */
  lemma {:induction false} HistoryIsUnique(left: History, right: History)
    requires WellFormed(left) && WellFormed(right) && Render(left) == Render(right)
    ensures left == right
  {
    if left.Then? && right.Then? {
      LastAssistant(left);
      LastAssistant(right);
      var n, m := |Render(left.earlier)|, |Render(right.earlier)|;
      assert n == m;
      assert Render(left.earlier) == Render(left)[..n] == Render(right.earlier);
      assert left.last.observed == Render(left)[n + 1..] == right.last.observed;
      HistoryIsUnique(left.earlier, right.earlier);
    }
  }

  /** The last batch starts at the last assistant message. */
  lemma LastAssistant(history: History)
    requires WellFormed(history) && history.Then?
    ensures var n := |Render(history.earlier)|;
            && n < |Render(history)|
            && Render(history)[n] == AssistantMessage(history.last.content, history.last.calls)
            && forall i | n < i < |Render(history)| :: Render(history)[i].ToolResultMessage?
  {
    var n := |Render(history.earlier)|;
    forall i | n < i < |Render(history)| ensures Render(history)[i].ToolResultMessage? {
      assert Answers(history.last.observed[i - n - 1], history.last.calls[i - n - 1]);
    }
  }

  /** The checker's loop body: one message against what was called and answered so far. */
  method CheckMessage(
    message: Message, outstanding: seq<ToolCall>, latestCalls: seq<ToolCall>, seenCallIds: set<string>,
    observedResults: seq<Message>, ghost started: bool)
    returns (rejected: bool, outstanding': seq<ToolCall>, latestCalls': seq<ToolCall>, seenCallIds': set<string>,
             observedResults': seq<Message>)
    requires started && latestCalls == [] ==> outstanding != [] || !message.AssistantMessage?
    ensures ScanMessage(Scan(started, outstanding, latestCalls, seenCallIds, observedResults), message)
         == if rejected then None
            else Some(Scan(
              message.AssistantMessage? || started, outstanding', latestCalls', seenCallIds', observedResults'))
    ensures !rejected ==> message.AssistantMessage? || message.ToolResultMessage?
    ensures !rejected && message.AssistantMessage? ==> latestCalls' == message.toolCalls
    ensures !rejected && message.ToolResultMessage? ==> outstanding != [] && latestCalls' == latestCalls
    ensures ToolMessages(observedResults) && !rejected ==> ToolMessages(observedResults')
  {
    rejected, outstanding', latestCalls', seenCallIds', observedResults' :=
      false, outstanding, latestCalls, seenCallIds, observedResults;
    if message.AssistantMessage? {
      if outstanding != [] {
        rejected := true;
        return;
      }
      latestCalls' := message.toolCalls;
      var added := AddCallIds(message.toolCalls, seenCallIds);
      if added.None? {
        rejected := true;
        return;
      }
      seenCallIds' := added.value;
      outstanding' := message.toolCalls;
      return;
    }
    if !message.ToolResultMessage? || outstanding == [] {
      rejected := true;
      return;
    }
    var expected := outstanding[0];
    outstanding' := outstanding[1..];
    if message.callId != expected.callId || message.artifactRefs != [] {
      rejected := true;
      return;
    }
    observedResults' := observedResults + [message];
  }

  /** The checker's own loop over the frozen tail. */
  method FrozenMessageTailIsValid(
    messages: seq<Message>, pending: seq<ToolCall>, nextToolIndex: nat, results: seq<ToolResult>)
    returns (valid: bool)
    ensures valid == TailIsValid(messages, pending, nextToolIndex, results)
  {
    if !MessagesParse(messages) || !CallsParse(pending) {
      return false;
    }
    if messages == [] {
      return pending == [] && nextToolIndex == 0 && results == [];
    }
    var outstanding: seq<ToolCall> := [];
    var latestCalls: seq<ToolCall> := [];
    var seenCallIds: set<string> := {};
    var observedResults: seq<Message> := [];
    var index := 0;
    while index < |messages|
      invariant 0 <= index <= |messages|
      invariant ScanTail(messages[..index]) ==
                Some(Scan(index > 0, outstanding, latestCalls, seenCallIds, observedResults))
      invariant index > 0 && latestCalls == [] ==> index == |messages| && outstanding == []
      invariant ToolMessages(observedResults)
    {
      var message := messages[index];
      assert messages[..index + 1] == messages[..index] + [message];
      ScanAppend(messages[..index], message);
      if message.AssistantMessage? && message.toolCalls == [] && index != |messages| - 1 {
        RejectedAfterFinalAnswer(messages, index);
        return false;
      }
      var rejected;
      rejected, outstanding, latestCalls, seenCallIds, observedResults :=
        CheckMessage(message, outstanding, latestCalls, seenCallIds, observedResults, index > 0);
      if rejected {
        RejectedPrefix(messages, index + 1);
        return false;
      }
      index := index + 1;
    }
    assert messages[..index] == messages;
    if pending != latestCalls || nextToolIndex != |latestCalls| - |outstanding| {
      return false;
    }
    if |results| != |observedResults| {
      return false;
    }
    valid := ResultsAgree(observedResults, results);
  }

  /** Nothing may follow an assistant message without calls. */
  lemma RejectedAfterFinalAnswer(messages: seq<Message>, index: nat)
    requires index < |messages| - 1 && messages[index].AssistantMessage? && messages[index].toolCalls == []
    ensures ScanTail(messages).None?
  {
    assert messages[..index + 1] == messages[..index] + [messages[index]];
    ScanAppend(messages[..index], messages[index]);
    if ScanTail(messages[..index + 1]).None? {
      RejectedPrefix(messages, index + 1);
    } else {
      assert messages[..index + 2] == messages[..index + 1] + [messages[index + 1]];
      ScanAppend(messages[..index + 1], messages[index + 1]);
      RejectedPrefix(messages, index + 2);
    }
  }

  predicate ToolMessages(messages: seq<Message>) {
    forall i | 0 <= i < |messages| :: messages[i].ToolResultMessage? && messages[i].artifactRefs == []
  }

  /** Add each call id to the ones seen; a repeated id is refused. */
  method AddCallIds(calls: seq<ToolCall>, seen: set<string>) returns (updated: Option<set<string>>)
    ensures updated == if DistinctIds(calls) && seen !! IdSet(calls) then Some(seen + IdSet(calls)) else None
  {
    var ids := seen;
    for i := 0 to |calls|
      invariant ids == seen + IdSet(calls[..i])
      invariant DistinctIds(calls[..i]) && seen !! IdSet(calls[..i])
    {
      IdSetGrows(calls, i);
      if calls[i].callId in ids {
        return None;
      }
      ids := ids + {calls[i].callId};
    }
    assert calls[..|calls|] == calls;
    return Some(ids);
  }

  lemma IdSetGrows(calls: seq<ToolCall>, n: nat)
    requires n < |calls|
    ensures IdSet(calls[..n + 1]) == IdSet(calls[..n]) + {calls[n].callId}
    ensures calls[n].callId in IdSet(calls)
    ensures calls[n].callId in IdSet(calls[..n]) ==> !DistinctIds(calls)
  {
    var shorter, longer := calls[..n], calls[..n + 1];
    forall id | id in IdSet(longer) ensures id in IdSet(shorter) + {calls[n].callId} {
      var i :| 0 <= i < |longer| && longer[i].callId == id;
      if i < n {
        assert shorter[i].callId == id;
      }
    }
    forall id | id in IdSet(shorter) ensures id in IdSet(longer) {
      var i :| 0 <= i < |shorter| && shorter[i].callId == id;
      assert longer[i].callId == id;
    }
    assert longer[n].callId == calls[n].callId;
  }

  method ResultsAgree(observations: seq<Message>, results: seq<ToolResult>) returns (agree: bool)
    requires |observations| == |results| && ToolMessages(observations)
    ensures agree == ResultsMatch(observations, results)
  {
    for i := 0 to |results|
      invariant forall j | 0 <= j < i :: observations[j] == Observe(results[j])
    {
      if || results[i].callId != observations[i].callId
         || results[i].content != observations[i].content
         || results[i].status.Error? != observations[i].isError
      {
        return false;
      }
    }
    return true;
  }
}
