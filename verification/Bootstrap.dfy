/**
 The readiness of one application: which surface requests are admitted before it is
 ready, and how an initialize attempt, a workspace-trust answer or a skill-management
 operation moves it. Each attempt holds a token; only the token that is still current
 may finish its attempt.
 */
module Bootstrap {
  import opened Outcomes

  datatype Phase = Uninitialized | Initializing | TrustRequired | StateResetRequired | Ready {
    predicate IsInteraction() {
      TrustRequired? || StateResetRequired?
    }
  }

  /** `OtherOperation` is any operation that admission does not name. */
  datatype ApplicationOperation =
    Initialize | RespondInteraction | CancelOperation | Shutdown
    | SkillList | SkillInstall | SkillRemove | OtherOperation
  {
    predicate IsSkillManagement() {
      SkillList? || SkillInstall? || SkillRemove?
    }

    predicate IsUrgent() {
      CancelOperation? || Shutdown?
    }
  }

  datatype Rejection =
    InitializationInProgress | ServerNotInitialized | ServerNotReady
    | PreinitializeOperationInProgress | SkillManagementRequiresUninitialized

  datatype Stable = Stable(phase: Phase, interactionId: Option<string>)
  datatype InitializeTransition = InitializeTransition(generation: Option<nat>, origin: Stable)
  datatype Decision = Trust | OtherDecision
  datatype InteractionTransition = InteractionTransition(phase: Phase, interactionId: string, decision: Decision)
  datatype PreInitializeTransition = PreInitializeTransition(generation: nat, operation: ApplicationOperation)

  /** What an initialize attempt reports; `Malformed` is every result that validation refuses. */
  datatype InitializeOutcome =
    | Reports(state: Stable)
    | Fails
    | Malformed
  {
    predicate Valid() {
      Reports? ==>
        || state == Stable(Ready, None)
        || (state.phase.IsInteraction() && state.interactionId.Some?)
    }
  }

  datatype State = State(
    phase: Phase,
    interactionId: Option<string>,
    nextInitialize: nat,
    activeInitialize: Option<nat>,
    nextPreinitialize: nat,
    activePreinitialize: Option<PreInitializeTransition>)
  {
    function Now(): Stable {
      Stable(phase, interactionId)
    }
  }

  const NEW_STATE: State := State(Uninitialized, None, 0, None, 0, None)

  function RejectionOf(s: State, operation: Option<ApplicationOperation>): Option<Rejection> {
    if operation.Some? && operation.value.IsSkillManagement() then
      if !s.phase.Uninitialized? then Some(SkillManagementRequiresUninitialized)
      else if s.activePreinitialize.Some? then Some(PreinitializeOperationInProgress)
      else None
    else if operation == Some(Initialize) && s.activePreinitialize.Some? then
      Some(PreinitializeOperationInProgress)
    else if (operation.Some? && operation.value.IsUrgent()) || s.phase.Ready? then None
    else if operation == Some(Initialize) then
      if s.phase.Initializing? then Some(InitializationInProgress) else None
    else if operation == Some(RespondInteraction) && s.phase.IsInteraction() then None
    else if s.phase.Uninitialized? then Some(ServerNotInitialized)
    else Some(ServerNotReady)
  }

  /** The tokens handed out so far, with the state itself. */
  datatype Session = Session(
    state: State,
    initializes: seq<InitializeTransition>,
    preinitializes: seq<PreInitializeTransition>,
    interactions: seq<InteractionTransition>)

  const NEW_SESSION: Session := Session(NEW_STATE, [], [], [])

  /** A call, naming a token by when it was handed out. */
  datatype Event =
    | BeginInitialize
    | CompleteInitialize(token: nat, outcome: InitializeOutcome)
    | AbortInitialize(token: nat)
    | BeginPreinitialize(operation: ApplicationOperation)
    | CompletePreinitialize(token: nat)
    | BeginInteraction(interactionId: string, decision: Option<Decision>)
    | CompleteInteraction(token: nat, resolved: bool)

  predicate Enabled(s: Session, e: Event) {
    match e
    case CompleteInitialize(token, outcome) => token < |s.initializes| && outcome.Valid()
    case AbortInitialize(token) => token < |s.initializes|
    case CompletePreinitialize(token) => token < |s.preinitializes|
    case CompleteInteraction(token, _) => token < |s.interactions|
    case _ => true
  }

  /** Whether a token may still finish its attempt. */
  predicate Accepts(s: State, token: InitializeTransition) {
    if token.generation.None? then token.origin.phase.Ready?
    else s.phase.Initializing? && s.activeInitialize == token.generation
  }

  function Restore(s: State, token: InitializeTransition): State {
    if token.generation.None? then s.(phase := Ready, interactionId := None)
    else s.(activeInitialize := None, phase := token.origin.phase, interactionId := token.origin.interactionId)
  }

  predicate MayBeginInitialize(s: State) {
    s.activePreinitialize.None? && !s.phase.Initializing?
  }

  function InitializeToken(s: State): InitializeTransition {
    InitializeTransition(if s.phase.Ready? then None else Some(s.nextInitialize + 1), s.Now())
  }

  function AfterBeginInitialize(s: State): State {
    if !MayBeginInitialize(s) || s.phase.Ready? then s
    else
      var generation := s.nextInitialize + 1;
      s.(nextInitialize := generation, activeInitialize := Some(generation),
         phase := Initializing, interactionId := None)
  }

  function AfterAbortInitialize(s: State, token: InitializeTransition): State {
    if Accepts(s, token) then Restore(s, token) else s
  }

  predicate MayBeginPreinitialize(s: State, operation: ApplicationOperation) {
    operation.IsSkillManagement() && RejectionOf(s, Some(operation)).None?
  }

  function PreinitializeToken(s: State, operation: ApplicationOperation): PreInitializeTransition {
    PreInitializeTransition(s.nextPreinitialize + 1, operation)
  }

  function AfterBeginPreinitialize(s: State, operation: ApplicationOperation): State {
    if !MayBeginPreinitialize(s, operation) then s
    else s.(nextPreinitialize := s.nextPreinitialize + 1, activePreinitialize := Some(PreinitializeToken(s, operation)))
  }

  function AfterCompletePreinitialize(s: State, token: PreInitializeTransition): State {
    if s.activePreinitialize == Some(token) then s.(activePreinitialize := None) else s
  }

  predicate MayBeginInteraction(s: State, interactionId: string) {
    s.phase.IsInteraction() && s.interactionId == Some(interactionId)
  }

  function AfterCompleteInitialize(s: State, token: InitializeTransition, outcome: InitializeOutcome): State {
    if !Accepts(s, token) then s
    else if !outcome.Reports? || (token.origin.phase.Ready? && !outcome.state.phase.Ready?) then Restore(s, token)
    else s.(activeInitialize := None, phase := outcome.state.phase, interactionId := outcome.state.interactionId)
  }

  function AfterCompleteInteraction(s: State, token: InteractionTransition, resolved: bool): State {
    if s.phase != token.phase || s.interactionId != Some(token.interactionId) || !resolved then s
    else if token.phase.TrustRequired? && token.decision.Trust? then s.(phase := Ready, interactionId := None)
    else s
  }

  function Step(s: Session, e: Event): Session
    requires Enabled(s, e)
  {
    match e
    case BeginInitialize =>
      Session(
        AfterBeginInitialize(s.state),
        if MayBeginInitialize(s.state) then s.initializes + [InitializeToken(s.state)] else s.initializes,
        s.preinitializes, s.interactions)
    case CompleteInitialize(token, outcome) =>
      s.(state := AfterCompleteInitialize(s.state, s.initializes[token], outcome))
    case AbortInitialize(token) =>
      s.(state := AfterAbortInitialize(s.state, s.initializes[token]))
    case BeginPreinitialize(operation) =>
      Session(
        AfterBeginPreinitialize(s.state, operation), s.initializes,
        if MayBeginPreinitialize(s.state, operation) then s.preinitializes + [PreinitializeToken(s.state, operation)]
        else s.preinitializes,
        s.interactions)
    case CompletePreinitialize(token) =>
      s.(state := AfterCompletePreinitialize(s.state, s.preinitializes[token]))
    case BeginInteraction(interactionId, decision) =>
      if MayBeginInteraction(s.state, interactionId) && decision.Some?
      then s.(interactions := s.interactions + [InteractionTransition(s.state.phase, interactionId, decision.value)])
      else s
    case CompleteInteraction(token, resolved) =>
      s.(state := AfterCompleteInteraction(s.state, s.interactions[token], resolved))
  }

  /** What every reachable session satisfies. */
  ghost predicate Valid(s: Session) {
    && (s.state.phase.Initializing? <==> s.state.activeInitialize.Some?)
    && (s.state.phase.IsInteraction() <==> s.state.interactionId.Some?)
    && (s.state.activePreinitialize.Some? ==> s.state.phase.Uninitialized?)
    && (s.state.activeInitialize.Some? ==> s.state.activeInitialize.value == s.state.nextInitialize)
    && (forall t :: t in s.initializes ==> ValidToken(s.state, t))
    && (forall t :: t in s.interactions ==> t.phase.IsInteraction())
    && (forall t :: t in s.preinitializes ==> t.generation <= s.state.nextPreinitialize)
    && (s.state.activePreinitialize.Some? ==> s.state.activePreinitialize.value.generation == s.state.nextPreinitialize)
    && (forall i, j :: 0 <= i < j < |s.initializes| ==>
          s.initializes[i].generation.Some? ==> s.initializes[i].generation != s.initializes[j].generation)
    && (forall i, j :: 0 <= i < j < |s.preinitializes| ==>
          s.preinitializes[i].generation != s.preinitializes[j].generation)
  }

  ghost predicate ValidToken(s: State, t: InitializeTransition) {
    && !t.origin.phase.Initializing?
    && (t.origin.phase.IsInteraction() <==> t.origin.interactionId.Some?)
    && if t.generation.None? then t.origin == Stable(Ready, None) && s.phase.Ready?
       else !t.origin.phase.Ready? && t.generation.value <= s.nextInitialize
  }

  lemma BeginInitializeKeepsValid(s: Session)
    requires Valid(s)
    ensures Valid(Step(s, BeginInitialize))
  {
    var next := Step(s, BeginInitialize);
    forall i | 0 <= i < |s.initializes|
      ensures ValidToken(next.state, s.initializes[i])
      ensures s.initializes[i].generation.Some? ==> s.initializes[i].generation.value <= s.state.nextInitialize
    {
      assert s.initializes[i] in s.initializes;
    }
  }

  lemma StepKeepsValid(s: Session, e: Event)
    requires Valid(s) && Enabled(s, e)
    ensures Valid(Step(s, e))
  {
    if e.BeginInitialize? {
      BeginInitializeKeepsValid(s);
    } else {
      var next := Step(s, e);
      if e.CompleteInitialize? || e.AbortInitialize? {
        assert s.initializes[e.token] in s.initializes;
      }
      assert forall t :: t in s.initializes ==> ValidToken(s.state, t) && ValidToken(next.state, t);
    }
  }

  ghost predicate Happens(s: Session, events: seq<Event>)
    decreases |events|
  {
    events == [] || (Enabled(s, events[0]) && Happens(Step(s, events[0]), events[1..]))
  }

  ghost function After(s: Session, events: seq<Event>): Session
    requires Happens(s, events)
    decreases |events|
  {
    if events == [] then s else After(Step(s, events[0]), events[1..])
  }

  /** Tokens are only ever added, and generations only ever grow. */
  ghost predicate Extends(before: Session, after: Session) {
    && before.initializes <= after.initializes
    && before.preinitializes <= after.preinitializes
    && before.interactions <= after.interactions
    && before.state.nextInitialize <= after.state.nextInitialize
    && before.state.nextPreinitialize <= after.state.nextPreinitialize
    && (before.state.phase.Ready? ==> after.state == before.state)
  }

  /**
   Over every run from a valid session: the invariant holds, tokens persist, and a ready
   application stays ready with nothing else changing.
   */
  lemma {:induction false} RunKeepsValid(s: Session, events: seq<Event>)
    requires Valid(s) && Happens(s, events)
    ensures Valid(After(s, events)) && Extends(s, After(s, events))
    decreases |events|
  {
    if events != [] {
      var next := Step(s, events[0]);
      StepKeepsValid(s, events[0]);
      if s.state.phase.Ready? {
        ReadyStepChangesNothing(s, events[0]);
      }
      RunKeepsValid(next, events[1..]);
    }
  }

  lemma ReadyStepChangesNothing(s: Session, e: Event)
    requires Valid(s) && Enabled(s, e) && s.state.phase.Ready?
    ensures Step(s, e).state == s.state
  {
    match e
    case CompleteInitialize(token, outcome) =>
      assert ValidToken(s.state, s.initializes[token]);
    case AbortInitialize(token) =>
      assert ValidToken(s.state, s.initializes[token]);
    case CompleteInteraction(token, resolved) =>
      assert s.interactions[token] in s.interactions;
    case _ =>
  }

  /** A token that may no longer finish its attempt never may again. */
  lemma {:induction false} StaleTokensStayStale(s: Session, events: seq<Event>, token: nat)
    requires Valid(s) && Happens(s, events) && token < |s.initializes|
    requires !Accepts(s.state, s.initializes[token])
    ensures s.initializes <= After(s, events).initializes
    ensures !Accepts(After(s, events).state, s.initializes[token])
    decreases |events|
  {
    RunKeepsValid(s, events);
    if events != [] {
      var next := Step(s, events[0]);
      assert ValidToken(s.state, s.initializes[token]);
      StepKeepsValid(s, events[0]);
      StaleTokensStayStale(next, events[1..], token);
    }
  }

  /** So does a skill-management token that was completed. */
  lemma {:induction false} StalePreinitializesStayStale(s: Session, events: seq<Event>, token: nat)
    requires Valid(s) && Happens(s, events) && token < |s.preinitializes|
    requires s.state.activePreinitialize != Some(s.preinitializes[token])
    ensures s.preinitializes <= After(s, events).preinitializes
    ensures After(s, events).state.activePreinitialize != Some(s.preinitializes[token])
    decreases |events|
  {
    RunKeepsValid(s, events);
    if events != [] {
      assert s.preinitializes[token] in s.preinitializes;
      StepKeepsValid(s, events[0]);
      StalePreinitializesStayStale(Step(s, events[0]), events[1..], token);
    }
  }

  /** While an attempt may still finish, nothing else has moved the application at all. */
  lemma {:induction false} OpenAttemptFreezesState(s: Session, events: seq<Event>, token: nat)
    requires Valid(s) && Happens(s, events) && token < |s.initializes|
    requires s.initializes[token].generation.Some?
    requires Accepts(After(s, events).state, s.initializes[token])
    ensures After(s, events).state == s.state
    decreases |events|
  {
    if events != [] {
      var next := Step(s, events[0]);
      StepKeepsValid(s, events[0]);
      if !Accepts(s.state, s.initializes[token]) {
        StaleTokensStayStale(s, events, token);
        assert false;
      } else if !Accepts(next.state, s.initializes[token]) {
        StaleTokensStayStale(next, events[1..], token);
        assert false;
      } else {
        OpenAttemptFreezesState(next, events[1..], token);
      }
    }
  }

  /** The event completes or aborts this attempt, with whatever result. */
  predicate Ends(e: Event, token: nat) {
    (e.CompleteInitialize? || e.AbortInitialize?) && e.token == token
  }

  predicate NoneEnds(events: seq<Event>, token: nat) {
    forall e :: e in events ==> !Ends(e, token)
  }

  lemma AttemptOpenAfterStep(s: Session, e: Event, token: nat)
    requires Valid(s) && Enabled(s, e) && token < |Step(s, e).initializes|
    requires Step(s, e).initializes[token].generation.Some?
    ensures Accepts(Step(s, e).state, Step(s, e).initializes[token])
            <==> if token < |s.initializes| then Accepts(s.state, s.initializes[token]) && !Ends(e, token) else true
  {
    if token < |s.initializes| {
      assert ValidToken(s.state, s.initializes[token]);
      if e.CompleteInitialize? || e.AbortInitialize? {
        assert ValidToken(s.state, s.initializes[e.token]);
        assert Accepts(s.state, s.initializes[token]) && Accepts(s.state, s.initializes[e.token]) ==> e.token == token;
      }
      if e.CompleteInteraction? {
        assert s.interactions[e.token] in s.interactions;
      }
    }
  }

  /** An attempt is open exactly from its beginning to the first event that completes or aborts it. */
  lemma {:induction false} AttemptIsOpenUntilEnded(s: Session, events: seq<Event>, token: nat)
    requires Valid(s) && Happens(s, events) && token < |After(s, events).initializes|
    requires After(s, events).initializes[token].generation.Some?
    ensures Accepts(After(s, events).state, After(s, events).initializes[token])
            <==> (token < |s.initializes| ==> Accepts(s.state, s.initializes[token])) && NoneEnds(events, token)
    decreases |events|
  {
    RunKeepsValid(s, events);
    if events != [] {
      var e, rest := events[0], events[1..];
      var next := Step(s, e);
      StepKeepsValid(s, e);
      RunKeepsValid(next, rest);
      AttemptIsOpenUntilEnded(next, rest, token);
      assert NoneEnds(events, token) <==> !Ends(e, token) && NoneEnds(rest, token) by {
        assert events == [e] + rest;
      }
      hide Step, Valid, Accepts, NoneEnds, Ends;
      if token < |next.initializes| {
        AttemptOpenAfterStep(s, e, token);
        if token >= |s.initializes| {
          NewTokensAreBegun(s, e, token);
        }
      } else {
        EndingNeedsToken(s, e, token);
      }
    }
  }

  lemma NewTokensAreBegun(s: Session, e: Event, token: nat)
    requires Enabled(s, e) && |s.initializes| <= token < |Step(s, e).initializes|
    ensures e.BeginInitialize? && !Ends(e, token)
  {
  }

  lemma EndingNeedsToken(s: Session, e: Event, token: nat)
    requires Enabled(s, e) && token >= |s.initializes|
    ensures !Ends(e, token)
  {
  }

  /**
   An attempt that fails, is refused or is aborted, after anything else happened in
   between, leaves exactly the state it began from; only its generation is spent, and its
   token is stale for good. A reported state replaces it.
   */
  lemma FailedAttemptRestoresOrigin(s: Session, events: seq<Event>, outcome: InitializeOutcome)
    requires Valid(s) && s.state.activePreinitialize.None? && !s.state.phase.Initializing? && !s.state.phase.Ready?
    requires Happens(Step(s, BeginInitialize), events) && outcome.Valid() && NoneEnds(events, |s.initializes|)
    ensures
      var end := After(Step(s, BeginInitialize), events).state;
      var token := InitializeToken(s.state);
      var origin := s.state.(nextInitialize := s.state.nextInitialize + 1);
      && Accepts(end, token)
      && AfterAbortInitialize(end, token) == origin
      && AfterCompleteInitialize(end, token, outcome) ==
           (if outcome.Reports? then origin.(phase := outcome.state.phase, interactionId := outcome.state.interactionId)
            else origin)
      && !Accepts(AfterAbortInitialize(end, token), token)
      && !Accepts(AfterCompleteInitialize(end, token, outcome), token)
  {
    var begun := Step(s, BeginInitialize);
    StepKeepsValid(s, BeginInitialize);
    RunKeepsValid(begun, events);
    assert begun.initializes[|s.initializes|] == InitializeToken(s.state);
    AttemptIsOpenUntilEnded(begun, events, |s.initializes|);
    OpenAttemptFreezesState(begun, events, |s.initializes|);
  }

  // ---- skill operations -----------------------------------------------------------

  lemma SkillOpenAfterStep(s: Session, e: Event, token: nat)
    requires Valid(s) && Enabled(s, e) && token < |Step(s, e).preinitializes|
    ensures Step(s, e).state.activePreinitialize == Some(Step(s, e).preinitializes[token])
            <==> if token < |s.preinitializes|
                 then s.state.activePreinitialize == Some(s.preinitializes[token]) && e != CompletePreinitialize(token)
                 else e.BeginPreinitialize?
  {
    if token < |s.preinitializes| {
      assert s.preinitializes[token] in s.preinitializes;
    }
  }

  lemma {:induction false} SkillIsOpenUntilCompleted(s: Session, events: seq<Event>, token: nat)
    requires Valid(s) && Happens(s, events) && token < |After(s, events).preinitializes|
    ensures After(s, events).state.activePreinitialize == Some(After(s, events).preinitializes[token])
            <==> (token < |s.preinitializes| ==> s.state.activePreinitialize == Some(s.preinitializes[token]))
                 && CompletePreinitialize(token) !in events
    decreases |events|
  {
    RunKeepsValid(s, events);
    if events != [] {
      var e, rest := events[0], events[1..];
      var next := Step(s, e);
      StepKeepsValid(s, e);
      RunKeepsValid(next, rest);
      SkillIsOpenUntilCompleted(next, rest, token);
      assert events == [e] + rest;
      assert token >= |s.preinitializes| ==> e != CompletePreinitialize(token);
      hide Step, Valid;
      if token < |next.preinitializes| {
        SkillOpenAfterStep(s, e, token);
        if token >= |s.preinitializes| {
          NewSkillTokensAreBegun(s, e, token);
        }
      }
    }
  }

  lemma NewSkillTokensAreBegun(s: Session, e: Event, token: nat)
    requires Enabled(s, e) && |s.preinitializes| <= token < |Step(s, e).preinitializes|
    ensures e.BeginPreinitialize?
  {
  }

  /** After any calls, a skill operation is active exactly if it began and its token has not been completed. */
  lemma SkillActiveExactlyUntilCompleted(events: seq<Event>)
    requires Happens(NEW_SESSION, events)
    ensures
      var s := After(NEW_SESSION, events);
      && (forall token :: 0 <= token < |s.preinitializes| ==>
            (s.state.activePreinitialize == Some(s.preinitializes[token])
             <==> CompletePreinitialize(token) !in events))
      && (s.state.activePreinitialize.Some?
          <==> exists token :: 0 <= token < |s.preinitializes| && CompletePreinitialize(token) !in events)
  {
    var s := After(NEW_SESSION, events);
    forall token | 0 <= token < |s.preinitializes|
      ensures s.state.activePreinitialize == Some(s.preinitializes[token])
              <==> CompletePreinitialize(token) !in events
    {
      SkillIsOpenUntilCompleted(NEW_SESSION, events, token);
    }
    ActiveSkillHasToken(NEW_SESSION, events);
  }

  lemma {:induction false} ActiveSkillHasToken(s: Session, events: seq<Event>)
    requires Valid(s) && Happens(s, events)
    requires s.state.activePreinitialize.Some? ==> s.state.activePreinitialize.value in s.preinitializes
    ensures After(s, events).state.activePreinitialize.Some? ==>
              After(s, events).state.activePreinitialize.value in After(s, events).preinitializes
    decreases |events|
  {
    if events != [] {
      StepKeepsValid(s, events[0]);
      ActiveSkillHasToken(Step(s, events[0]), events[1..]);
    }
  }

  /** While a skill operation is open nothing else moves the state. */
  lemma {:induction false} OpenSkillFreezesState(s: Session, events: seq<Event>, token: nat)
    requires Valid(s) && Happens(s, events) && token < |s.preinitializes|
    requires s.state.activePreinitialize == Some(s.preinitializes[token])
    requires CompletePreinitialize(token) !in events
    ensures After(s, events).state == s.state && s.preinitializes <= After(s, events).preinitializes
    decreases |events|
  {
    if events != [] {
      var e, rest := events[0], events[1..];
      assert events == [e] + rest;
      SkillStaysPut(s, e, token);
      StepKeepsValid(s, e);
      hide Step, Valid;
      OpenSkillFreezesState(Step(s, e), rest, token);
    }
  }

  lemma SkillStaysPut(s: Session, e: Event, token: nat)
    requires Valid(s) && Enabled(s, e) && token < |s.preinitializes|
    requires s.state.activePreinitialize == Some(s.preinitializes[token]) && e != CompletePreinitialize(token)
    ensures Step(s, e).state == s.state && s.preinitializes <= Step(s, e).preinitializes
    ensures token < |Step(s, e).preinitializes| && Step(s, e).preinitializes[token] == s.preinitializes[token]
  {
    if e.CompleteInitialize? || e.AbortInitialize? {
      assert ValidToken(s.state, s.initializes[e.token]);
    }
    if e.CompleteInteraction? {
      assert s.interactions[e.token] in s.interactions;
    }
  }

  /**
   A skill operation that is begun and completed, after anything in between, leaves exactly
   the state before it; only its generation is spent. Its token is stale, and initialize is
   admitted again.
   */
  lemma CompletedSkillRestoresState(s: Session, operation: ApplicationOperation, events: seq<Event>)
    requires Valid(s) && operation.IsSkillManagement()
    requires s.state.phase.Uninitialized? && s.state.activePreinitialize.None?
    requires Happens(Step(s, BeginPreinitialize(operation)), events)
    requires CompletePreinitialize(|s.preinitializes|) !in events
    ensures
      var last := After(Step(s, BeginPreinitialize(operation)), events);
      && Enabled(last, CompletePreinitialize(|s.preinitializes|))
      && last.state.activePreinitialize == Some(PreInitializeTransition(s.state.nextPreinitialize + 1, operation))
      && RejectionOf(last.state, Some(Initialize)) == Some(PreinitializeOperationInProgress)
      && var completed := Step(last, CompletePreinitialize(|s.preinitializes|)).state;
         && completed == s.state.(nextPreinitialize := s.state.nextPreinitialize + 1)
         && completed.activePreinitialize != Some(last.preinitializes[|s.preinitializes|])
         && RejectionOf(completed, Some(Initialize)).None? && MayBeginInitialize(completed)
  {
    var begun := Step(s, BeginPreinitialize(operation));
    StepKeepsValid(s, BeginPreinitialize(operation));
    RunKeepsValid(begun, events);
    OpenSkillFreezesState(begun, events, |s.preinitializes|);
  }

  /** An application becomes ready only when a current token reports it or the pending trust question is granted. */
  lemma ReadyOnlyWhenReportedOrTrusted(s: Session, e: Event)
    requires Valid(s) && Enabled(s, e) && !s.state.phase.Ready?
    ensures Step(s, e).state.phase.Ready? <==>
              || (e.CompleteInitialize? && Accepts(s.state, s.initializes[e.token])
                  && e.outcome.Reports? && e.outcome.state.phase.Ready?)
              || (e.CompleteInteraction? && e.resolved && s.state.phase.TrustRequired?
                  && s.interactions[e.token]
                     == InteractionTransition(TrustRequired, s.state.interactionId.value, Trust))
  {
    if e.CompleteInitialize? || e.AbortInitialize? {
      assert ValidToken(s.state, s.initializes[e.token]);
    }
    if e.CompleteInteraction? {
      assert s.interactions[e.token] in s.interactions;
    }
  }

  /**
   Only the pending question can be answered: an answer is bound exactly if it names the
   pending identity, and trusting the workspace then opens readiness if it is resolved.
   */
  lemma PendingAnswerIsBound(s: Session, interactionId: string, decision: Decision, resolved: bool)
    requires Valid(s)
    ensures
      var bound := Step(s, BeginInteraction(interactionId, Some(decision)));
      && bound.state == s.state
      && (|bound.interactions| > |s.interactions| <==> s.state.interactionId == Some(interactionId))
      && (s.state.interactionId == Some(interactionId) ==>
            Step(bound, CompleteInteraction(|s.interactions|, resolved)).state
            == if resolved && s.state.phase.TrustRequired? && decision.Trust?
               then s.state.(phase := Ready, interactionId := None) else s.state)
  {
  }

  /**
   In every reachable state admission agrees with the transitions it guards: initialize
   and skill management are admitted exactly when they may begin, a running skill
   operation keeps out everything but cancelling and shutting down, and before readiness
   only an initialize, the pending answer or those two get through.
   */
  lemma AdmissionAgrees(events: seq<Event>, operation: ApplicationOperation)
    requires Happens(NEW_SESSION, events)
    ensures
      var s := After(NEW_SESSION, events).state;
      var admitted := RejectionOf(s, Some(operation)).None?;
      && (operation.Initialize? ==> (admitted <==> MayBeginInitialize(s)))
      && (operation.IsSkillManagement() ==> (admitted <==> s.phase.Uninitialized? && s.activePreinitialize.None?))
      && (s.activePreinitialize.Some? ==> (admitted <==> operation.IsUrgent()))
      && (operation.RespondInteraction? ==> (admitted <==> s.phase.Ready? || s.interactionId.Some?))
      && (operation.OtherOperation? ==> (admitted <==> s.phase.Ready?))
      && (RejectionOf(s, None).None? <==> s.phase.Ready?)
  {
    RunKeepsValid(NEW_SESSION, events);
  }

  /** In every reachable state, when exactly each rejection is given; cancelling and shutting down never are. */
  lemma RejectionCodes(events: seq<Event>, operation: Option<ApplicationOperation>)
    requires Happens(NEW_SESSION, events)
    ensures
      var s := After(NEW_SESSION, events).state;
      var code := RejectionOf(s, operation);
      var skill := operation.Some? && operation.value.IsSkillManagement();
      var ordinary := operation.None? || operation.value.RespondInteraction? || operation.value.OtherOperation?;
      && (code == Some(SkillManagementRequiresUninitialized) <==> skill && !s.phase.Uninitialized?)
      && (code == Some(PreinitializeOperationInProgress)
          <==> s.activePreinitialize.Some? && (skill || operation == Some(Initialize)))
      && (code == Some(InitializationInProgress) <==> operation == Some(Initialize) && s.activeInitialize.Some?)
      && (code == Some(ServerNotInitialized) <==> ordinary && s.phase.Uninitialized?)
      && (code == Some(ServerNotReady) <==>
            && ordinary && !s.phase.Uninitialized? && !s.phase.Ready?
            && (operation == Some(RespondInteraction) ==> s.interactionId.None?))
      && (operation.Some? && operation.value.IsUrgent() ==> code.None?)
  {
    RunKeepsValid(NEW_SESSION, events);
  }

  class ApplicationBootstrap {
    var phase: Phase
    var interactionId: Option<string>
    var nextInitializeGeneration: nat
    var activeInitializeGeneration: Option<nat>
    var nextPreinitializeGeneration: nat
    var activePreinitialize: Option<PreInitializeTransition>

    function Now(): State
      reads this
    {
      State(phase, interactionId, nextInitializeGeneration, activeInitializeGeneration,
            nextPreinitializeGeneration, activePreinitialize)
    }

    constructor ()
      ensures Now() == NEW_STATE
    {
      phase, interactionId := Uninitialized, None;
      nextInitializeGeneration, activeInitializeGeneration := 0, None;
      nextPreinitializeGeneration, activePreinitialize := 0, None;
    }

    /** No token is an error. */
    method BeginInitialize() returns (token: Option<InitializeTransition>)
      modifies this
      ensures Now() == AfterBeginInitialize(old(Now()))
      ensures token == if MayBeginInitialize(old(Now())) then Some(InitializeToken(old(Now()))) else None
    {
      if activePreinitialize.Some? || phase.Initializing? {
        return None;
      }
      var origin := Stable(phase, interactionId);
      if phase.Ready? {
        return Some(InitializeTransition(None, origin));
      }
      nextInitializeGeneration := nextInitializeGeneration + 1;
      activeInitializeGeneration := Some(nextInitializeGeneration);
      phase, interactionId := Initializing, None;
      return Some(InitializeTransition(Some(nextInitializeGeneration), origin));
    }

    method RestoreInitialize(token: InitializeTransition)
      modifies this
      ensures Now() == Restore(old(Now()), token)
    {
      if token.generation.None? {
        phase, interactionId := Ready, None;
        return;
      }
      activeInitializeGeneration := None;
      phase, interactionId := token.origin.phase, token.origin.interactionId;
    }

    /** Raises for a token that is not current, and for a result that validation refuses. */
    method CompleteInitialize(token: InitializeTransition, outcome: InitializeOutcome) returns (raised: bool)
      modifies this
      ensures Now() == AfterCompleteInitialize(old(Now()), token, outcome)
      ensures raised <==>
                || !Accepts(old(Now()), token) || outcome.Malformed?
                || (outcome.Reports? && token.origin.phase.Ready? && !outcome.state.phase.Ready?)
    {
      if !Accepts(Now(), token) {
        return true;
      }
      if outcome.Fails? {
        RestoreInitialize(token);
        return false;
      }
      if outcome.Malformed? || (token.origin.phase.Ready? && !outcome.state.phase.Ready?) {
        RestoreInitialize(token);
        return true;
      }
      activeInitializeGeneration := None;
      phase, interactionId := outcome.state.phase, outcome.state.interactionId;
      return false;
    }

    method AbortInitialize(token: InitializeTransition) returns (raised: bool)
      modifies this
      ensures Now() == AfterAbortInitialize(old(Now()), token)
      ensures raised <==> !Accepts(old(Now()), token)
    {
      raised := !Accepts(Now(), token);
      if !raised {
        RestoreInitialize(token);
      }
    }

    method BeginPreinitialize(operation: ApplicationOperation) returns (token: Option<PreInitializeTransition>)
      modifies this
      ensures Now() == AfterBeginPreinitialize(old(Now()), operation)
      ensures token == if MayBeginPreinitialize(old(Now()), operation)
                       then Some(PreinitializeToken(old(Now()), operation)) else None
    {
      if !operation.IsSkillManagement() || RejectionOf(Now(), Some(operation)).Some? {
        return None;
      }
      nextPreinitializeGeneration := nextPreinitializeGeneration + 1;
      token := Some(PreInitializeTransition(nextPreinitializeGeneration, operation));
      activePreinitialize := token;
    }

    method CompletePreinitialize(token: PreInitializeTransition) returns (raised: bool)
      modifies this
      ensures Now() == AfterCompletePreinitialize(old(Now()), token)
      ensures raised <==> old(activePreinitialize) != Some(token)
    {
      raised := activePreinitialize != Some(token);
      if !raised {
        activePreinitialize := None;
      }
    }

    method BeginInteraction(id: string, decision: Option<Decision>) returns (token: Option<InteractionTransition>)
      ensures token.Some? <==> MayBeginInteraction(Now(), id) && decision.Some?
      ensures token.Some? ==> token.value == InteractionTransition(phase, id, decision.value)
    {
      if !phase.IsInteraction() || interactionId != Some(id) || decision.None? {
        return None;
      }
      return Some(InteractionTransition(phase, id, decision.value));
    }

    method CompleteInteraction(token: InteractionTransition, resolved: bool)
      modifies this
      ensures Now() == AfterCompleteInteraction(old(Now()), token, resolved)
    {
      if phase != token.phase || interactionId != Some(token.interactionId) || !resolved {
        return;
      }
      if token.phase.TrustRequired? && token.decision.Trust? {
        phase, interactionId := Ready, None;
      }
    }
  }

  /** One call on the object, with the tokens it has handed out; `finished` when it ended an initialize attempt. */
  method Handle(bootstrap: ApplicationBootstrap, ghost before: Session, held: Tokens, event: Event)
    returns (after: Tokens, finished: bool)
    requires before == held.With(bootstrap.Now()) && Enabled(before, event)
    modifies bootstrap
    ensures after.With(bootstrap.Now()) == Step(before, event)
    ensures finished ==>
              && (event.CompleteInitialize? || event.AbortInitialize?)
              && Accepts(before.state, held.initializes[event.token])
  {
    after, finished := held, false;
    match event
    case BeginInitialize =>
      var token := bootstrap.BeginInitialize();
      if token.Some? {
        after := held.(initializes := held.initializes + [token.value]);
      }
    case CompleteInitialize(token, outcome) =>
      var raised := bootstrap.CompleteInitialize(held.initializes[token], outcome);
      finished := !raised;
    case AbortInitialize(token) =>
      var raised := bootstrap.AbortInitialize(held.initializes[token]);
      finished := !raised;
    case BeginPreinitialize(operation) =>
      var token := bootstrap.BeginPreinitialize(operation);
      if token.Some? {
        after := held.(preinitializes := held.preinitializes + [token.value]);
      }
    case CompletePreinitialize(token) =>
      var raised := bootstrap.CompletePreinitialize(held.preinitializes[token]);
    case BeginInteraction(interactionId, decision) =>
      var token := bootstrap.BeginInteraction(interactionId, decision);
      if token.Some? {
        after := held.(interactions := held.interactions + [token.value]);
      }
    case CompleteInteraction(token, resolved) =>
      bootstrap.CompleteInteraction(held.interactions[token], resolved);
  }

  datatype Tokens = Tokens(
    initializes: seq<InitializeTransition>,
    preinitializes: seq<PreInitializeTransition>,
    interactions: seq<InteractionTransition>)
  {
    function With(state: State): Session {
      Session(state, initializes, preinitializes, interactions)
    }
  }

  /**
   The object over any calls with tokens it handed out. It goes through the model's
   states; once ready it stays ready; no initialize attempt finishes twice; and a skill
   operation is active exactly if one of those begun has not been completed.
   */
  method RunBootstrap(events: seq<Event>)
    returns (session: Session, wasReady: bool, skillActive: bool, finished: seq<nat>)
    requires Happens(NEW_SESSION, events)
    ensures session == After(NEW_SESSION, events) && Valid(session)
    ensures wasReady ==> session.state.phase.Ready?
    ensures skillActive <==>
              exists token :: 0 <= token < |session.preinitializes| && CompletePreinitialize(token) !in events
    ensures forall i, j | 0 <= i < j < |finished| :: finished[i] != finished[j]
    ensures forall i | 0 <= i < |finished| ::
              finished[i] < |session.initializes| && !Accepts(session.state, session.initializes[finished[i]])
  {
    var bootstrap := new ApplicationBootstrap();
    var held := Tokens([], [], []);
    ghost var now := NEW_SESSION;
    wasReady, finished := false, [];
    assert events[0..] == events;
    var i := 0;
    while i < |events|
      invariant i <= |events| && fresh(bootstrap) && now == held.With(bootstrap.Now()) && Valid(now)
      invariant Happens(now, events[i..]) && After(now, events[i..]) == After(NEW_SESSION, events)
      invariant wasReady ==> now.state.phase.Ready?
      invariant Finished(now, finished)
    {
      assert events[i..][0] == events[i] && events[i..][1..] == events[i + 1..];
      var ended;
      StepKeepsValid(now, events[i]);
      FinishedOneMore(now, events[i], finished);
      if now.state.phase.Ready? {
        ReadyStepChangesNothing(now, events[i]);
      }
      held, ended := Handle(bootstrap, now, held, events[i]);
      now := Step(now, events[i]);
      if ended && held.initializes[events[i].token].generation.Some? {
        finished := finished + [events[i].token];
      }
      wasReady := wasReady || bootstrap.phase.Ready?;
      i := i + 1;
    }
    session := held.With(bootstrap.Now());
    skillActive := bootstrap.activePreinitialize.Some?;
    SkillActiveExactlyUntilCompleted(events);
  }

  /** The attempts on record are different ones, and none may finish again. */
  ghost predicate Finished(s: Session, finished: seq<nat>) {
    && (forall i, j | 0 <= i < j < |finished| :: finished[i] != finished[j])
    && forall i | 0 <= i < |finished| ::
         && finished[i] < |s.initializes| && s.initializes[finished[i]].generation.Some?
         && !Accepts(s.state, s.initializes[finished[i]])
  }

  lemma FinishedOneMore(s: Session, e: Event, finished: seq<nat>)
    requires Valid(s) && Enabled(s, e) && Finished(s, finished)
    ensures Finished(Step(s, e), finished)
    ensures (e.CompleteInitialize? || e.AbortInitialize?) && s.initializes[e.token].generation.Some?
            && Accepts(s.state, s.initializes[e.token]) ==>
              Finished(Step(s, e), finished + [e.token])
  {
    forall i | 0 <= i < |finished|
      ensures !Accepts(Step(s, e).state, s.initializes[finished[i]])
    {
      StaleAfterStep(s, e, finished[i]);
    }
    if (e.CompleteInitialize? || e.AbortInitialize?) && Accepts(s.state, s.initializes[e.token]) {
      assert ValidToken(s.state, s.initializes[e.token]);
    }
  }

  lemma StaleAfterStep(s: Session, e: Event, token: nat)
    requires Valid(s) && Enabled(s, e) && token < |s.initializes| && !Accepts(s.state, s.initializes[token])
    ensures !Accepts(Step(s, e).state, s.initializes[token])
  {
    assert ValidToken(s.state, s.initializes[token]);
    StepKeepsValid(s, e);
  }
}
