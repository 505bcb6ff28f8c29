/**
 One foreground operation at a time: reserved, started, run in its own task, cancelled
 or committed, published, and released. Coroutines are cut at their awaits; each event
 is one atomic section, and any order of events may happen.
 */
module Operations {
  import opened Outcomes

  datatype Phase = Reserved | Starting | Running | Cancelling | Committing | Committed
  datatype Terminal = Completed | Failed | Cancelled

  /** Where the operation's own task is. `Ended` also covers a task whose body never ran. */
  datatype TaskAt =
    | NotCreated
    | Created
    | InFactory
    | InCommit(success: bool)
    | Publishing
    | PublishingEarly
    | Ended

  /** Where the coroutine that starts the operation is. */
  datatype StarterAt = Holding | Emitting | AwaitingReady | AwaitingTask | StarterPublishing | StarterDone

  datatype Lease = OperationLease(id: nat) | ExclusiveLease

  /** One operation, with its history: what it tried to publish, and how it was decided. */
  datatype Operation = Operation(
    task: TaskAt,
    starter: StarterAt,
    consumed: bool,
    cancelRequested: bool,
    ready: bool,
    starterCancelled: bool,
    released: nat,
    attempts: seq<Terminal>,
    entered: bool,
    stoppedEarly: bool,
    cancelAccepted: bool,
    commitStarted: bool,
    committed: Option<Terminal>)

  const NEW_OPERATION: Operation := Operation(
    NotCreated, Holding, false, false, false, false, 0, [], false, false, false, false, None)

  /** The arbiter's lease and the controller's fields; operations are numbered as they are reserved. */
  datatype Session = Session(
    lease: Option<Lease>,
    closing: bool,
    leaseLost: bool,
    activeId: Option<nat>,
    phase: Option<Phase>,
    committedTerminal: Option<Terminal>,
    activeTask: Option<nat>,
    activeReservation: Option<nat>,
    starterTask: Option<nat>,
    operations: seq<Operation>)

  const NEW_SESSION: Session := Session(None, false, false, None, None, None, None, None, None, [])

  datatype Event =
    | Reserve(admitted: bool)
    | Abort(id: nat)
    | StartReserved(id: nat)
    | EmitReturns(id: nat)
    | EmitRaises(id: nat)
    | TaskFirstStep(id: nat)
    | BeginCommit(id: nat, success: bool)
    | EndCommit(id: nat, returned: bool)
    | FactoryReturns(id: nat)
    | FactoryRaises(id: nat)
    | FactoryCancelled(id: nat)
    | PublicationEnds(id: nat)
    | StarterWakes(id: nat)
    | StarterCancelled(id: nat)
    | StarterSeesTaskEnd(id: nat)
    | StarterPublicationEnds(id: nat)
    | Cancel(id: nat)
    | BeginShutdown
    | ShutdownCancelsTask
    | AcquireExclusive
    | ReleaseExclusive

  function With(session: Session, id: nat, operation: Operation): Session
    requires id < |session.operations|
  {
    session.(operations := session.operations[id := operation])
  }

  /** Releasing a lease twice does nothing; releasing one the arbiter no longer holds is an error. */
  function Release(session: Session, id: nat): Session
    requires id < |session.operations|
  {
    var operation := session.operations[id];
    if operation.released > 0 then session
    else
      With(session, id, operation.(released := 1)).(
        lease := if session.lease == Some(OperationLease(id)) then None else session.lease,
        leaseLost := session.leaseLost || session.lease != Some(OperationLease(id)))
  }

  function Idle(session: Session): Session {
    session.(activeId := None, phase := None, committedTerminal := None)
  }

  /** Record one attempt to publish a terminal event. */
  function Publish(operation: Operation, terminal: Terminal, at: TaskAt): Operation {
    operation.(attempts := operation.attempts + [terminal], task := at)
  }

  /** The factory ended and the outcome is decided; publish it. */
  function PublishCommitted(session: Session, id: nat): Session
    requires id < |session.operations|
  {
    match session.committedTerminal
    case None => session
    case Some(terminal) => With(session, id, Publish(session.operations[id], terminal, Publishing))
  }

  function PublishCancelled(session: Session, id: nat): Session
    requires id < |session.operations|
  {
    With(session, id, Publish(session.operations[id], Cancelled, Publishing)).(phase := Some(Cancelling))
  }

  function CommitTerminal(session: Session, id: nat, terminal: Terminal): Session
    requires id < |session.operations|
  {
    With(session, id, session.operations[id].(committed := Some(terminal))).(
      phase := Some(Phase.Committed), committedTerminal := Some(terminal))
  }

  /** A factory that returned or raised while running commits that outcome now. */
  function FactoryEnds(session: Session, id: nat, terminal: Terminal): Session
    requires id < |session.operations|
  {
    if session.phase == Some(Cancelling) then PublishCancelled(session, id)
    else if session.phase == Some(Running) then PublishCommitted(CommitTerminal(session, id, terminal), id)
    else PublishCommitted(session, id)
  }

  /** Whether a call of cancel with this id returns True now. */
  predicate CancelReturnsTrue(session: Session, id: nat) {
    && session.activeId == Some(id)
    && (session.phase == Some(Starting) || (session.activeTask.Some? && session.phase == Some(Running)))
  }

  /** Move to CANCELLING; a task that exists is asked to stop. */
  function RequestCancel(session: Session, id: nat, byCaller: bool): Session
    requires id < |session.operations|
  {
    var operation := session.operations[id];
    With(session, id, operation.(
      cancelAccepted := operation.cancelAccepted || byCaller,
      stoppedEarly := operation.stoppedEarly || !operation.entered,
      cancelRequested := operation.cancelRequested || session.phase == Some(Running))).(phase := Some(Cancelling))
  }

  function DoReserve(session: Session, admitted: bool): Session {
    if session.activeId.Some? || session.closing || session.lease.Some? || !admitted then session
    else
      var id := |session.operations|;
      session.(
        lease := Some(OperationLease(id)), activeId := Some(id), phase := Some(Reserved),
        activeReservation := Some(id), starterTask := Some(id), operations := session.operations + [NEW_OPERATION])
  }

  function DoAbort(session: Session, id: nat): Session
    requires id < |session.operations|
  {
    var operation := session.operations[id];
    if operation.consumed then session
    else
      var consumed := With(session, id, operation.(consumed := true));
      var idle :=
        if session.activeId == Some(id) then Idle(consumed).(activeReservation := None, starterTask := None)
        else consumed;
      Release(idle, id)
  }

  function DoStart(session: Session, id: nat): Session
    requires id < |session.operations|
  {
    var operation := session.operations[id];
    if operation.consumed || session.activeId != Some(id) then session
    else With(session, id, operation.(consumed := true, starter := Emitting)).(phase := Some(Starting))
  }

  function EmitFails(session: Session, id: nat): Session
    requires id < |session.operations|
  {
    var done := With(session, id, session.operations[id].(starter := StarterDone));
    Release(Idle(done).(activeReservation := None, starterTask := None), id)
  }

  function DoEmitReturns(session: Session, id: nat): Session
    requires id < |session.operations|
  {
    var operation := session.operations[id];
    With(session, id, operation.(starter := AwaitingReady, task := Created)).(
      phase := if session.phase == Some(Starting) then Some(Running) else session.phase,
      activeTask := Some(id), activeReservation := None)
  }

  /** A task cancelled before its first step never runs its body. */
  function DoFirstStep(session: Session, id: nat): Session
    requires id < |session.operations|
  {
    var operation := session.operations[id];
    if operation.cancelRequested then With(session, id, operation.(task := Ended))
    else if session.phase == Some(Cancelling) then
      With(session, id, Publish(operation.(ready := true), Cancelled, PublishingEarly))
    else With(session, id, operation.(ready := true, entered := true, task := InFactory))
  }

  function DoBeginCommit(session: Session, id: nat, success: bool): Session
    requires id < |session.operations|
  {
    var operation := session.operations[id];
    if session.activeId != Some(id) || session.phase != Some(Running) then session
    else
      With(session, id, operation.(task := InCommit(success), commitStarted := true)).(phase := Some(Committing))
  }

  /** commit_completed records a failure when its action raises; commit_failed always does. */
  function DoEndCommit(session: Session, id: nat, returned: bool): Session
    requires id < |session.operations| && session.operations[id].task.InCommit?
  {
    var operation := session.operations[id];
    CommitTerminal(
      With(session, id, operation.(task := InFactory)), id,
      if operation.task.success && returned then Completed else Failed)
  }

  function DoPublicationEnds(session: Session, id: nat): Session
    requires id < |session.operations|
  {
    var operation := session.operations[id];
    var ended := With(session, id, operation.(task := Ended));
    if operation.task.PublishingEarly? then ended
    else Release(Idle(ended).(activeTask := None), id)
  }

  function DoStarterCancelled(session: Session, id: nat): Session
    requires id < |session.operations|
  {
    var operation := session.operations[id];
    var noted := With(session, id, operation.(starterCancelled := true));
    if operation.starter.Emitting? then EmitFails(noted, id)
    else
      var stopping := if session.phase == Some(Running) then RequestCancel(noted, id, false) else noted;
      With(stopping, id, stopping.operations[id].(starter := AwaitingTask))
  }

  function StarterCleansUp(session: Session, id: nat): Session
    requires id < |session.operations|
  {
    var done := With(session, id, session.operations[id].(starter := StarterDone));
    Release(Idle(done).(activeTask := None), id).(starterTask := None)
  }

  function DoStarterSeesTaskEnd(session: Session, id: nat): Session
    requires id < |session.operations|
  {
    var operation := session.operations[id];
    if session.activeId != Some(id) then
      With(session, id, operation.(starter := StarterDone)).(starterTask := None)
    else if session.phase == Some(Cancelling) then
      With(session, id, operation.(starter := StarterPublishing, attempts := operation.attempts + [Cancelled]))
    else StarterCleansUp(session, id)
  }

  function DoCancel(session: Session, id: nat): Session
    requires id < |session.operations|
  {
    if CancelReturnsTrue(session, id) then RequestCancel(session, id, true) else session
  }

  function DoShutdownCancelsTask(session: Session): Session {
    match session.activeTask
    case Some(id) =>
      if id < |session.operations| && session.phase == Some(Running) then RequestCancel(session, id, false)
      else session
    case None => session
  }

  /**
   Whether an event can happen now. A starter is cancelled at most once, and its wake-up,
   queued when the task sets `ready`, runs before the task's publication can finish.
   */
  predicate Enabled(session: Session, event: Event) {
    match event
    case Reserve(_) => true
    case BeginShutdown => true
    case ShutdownCancelsTask => session.closing
    case AcquireExclusive => !session.closing && session.lease.None?
    case ReleaseExclusive => session.lease == Some(ExclusiveLease)
    case Cancel(id) => id < |session.operations|
    case _ =>
      && event.id < |session.operations|
      && var operation := session.operations[event.id];
         match event
         case Abort(_) => true
         case StartReserved(_) => operation.starter.Holding?
         case EmitReturns(_) => operation.starter.Emitting?
         case EmitRaises(_) => operation.starter.Emitting?
         case TaskFirstStep(_) => operation.task.Created?
         case BeginCommit(_, _) => operation.task.InFactory?
         case EndCommit(_, _) => operation.task.InCommit?
         case FactoryReturns(_) => operation.task.InFactory?
         case FactoryRaises(_) => operation.task.InFactory?
         case FactoryCancelled(_) => operation.task.InFactory?
         case PublicationEnds(_) =>
           (operation.task.Publishing? || operation.task.PublishingEarly?) && !operation.starter.AwaitingReady?
         case StarterWakes(_) => operation.starter.AwaitingReady? && operation.ready
         case StarterCancelled(_) =>
           (operation.starter.Emitting? || operation.starter.AwaitingReady?) && !operation.starterCancelled
         case StarterSeesTaskEnd(_) => operation.starter.AwaitingTask? && operation.task.Ended?
         case StarterPublicationEnds(_) => operation.starter.StarterPublishing?
         case _ => false
  }

  function Step(session: Session, event: Event): Session
    requires Enabled(session, event)
  {
    match event
    case Reserve(admitted) => DoReserve(session, admitted)
    case Abort(id) => DoAbort(session, id)
    case StartReserved(id) => DoStart(session, id)
    case EmitReturns(id) => DoEmitReturns(session, id)
    case EmitRaises(id) => EmitFails(session, id)
    case TaskFirstStep(id) => DoFirstStep(session, id)
    case BeginCommit(id, success) => DoBeginCommit(session, id, success)
    case EndCommit(id, returned) => DoEndCommit(session, id, returned)
    case FactoryReturns(id) => FactoryEnds(session, id, Completed)
    case FactoryRaises(id) => FactoryEnds(session, id, Failed)
    case FactoryCancelled(id) =>
      if session.phase == Some(Phase.Committed) then PublishCommitted(session, id) else PublishCancelled(session, id)
    case PublicationEnds(id) => DoPublicationEnds(session, id)
    case StarterWakes(id) =>
      With(session, id, session.operations[id].(starter := StarterDone)).(starterTask := None)
    case StarterCancelled(id) => DoStarterCancelled(session, id)
    case StarterSeesTaskEnd(id) => DoStarterSeesTaskEnd(session, id)
    case StarterPublicationEnds(id) => StarterCleansUp(session, id)
    case Cancel(id) => DoCancel(session, id)
    case BeginShutdown => session.(closing := true)
    case ShutdownCancelsTask => DoShutdownCancelsTask(session)
    case AcquireExclusive => session.(lease := Some(ExclusiveLease))
    case ReleaseExclusive => session.(lease := None)
  }

  // ---- the invariant ------------------------------------------------------------

  /** What a phase says about the active operation's task and starter. */
  predicate PhaseOk(phase: Phase, operation: Operation) {
    match phase
    case Reserved => operation == NEW_OPERATION
    case Starting => operation.starter.Emitting? && !operation.starterCancelled
    case Running =>
      && (operation.task.Created? || operation.task.InFactory?) && !operation.starterCancelled
      && (operation.starter.AwaitingReady? || operation.starter.StarterDone?)
    case Cancelling => operation.task.NotCreated? || operation.task.Created? ==> operation.stoppedEarly
    case Committing => operation.task.InCommit? && operation.commitStarted
    case Committed => operation.task.InFactory? || operation.task.Publishing?
  }

  /** How far the task of the active operation is, and what it has attempted by then. */
  predicate TaskOk(phase: Phase, operation: Operation) {
    match operation.task
    case NotCreated =>
      && (operation.starter.Holding? || operation.starter.Emitting?)
      && operation.attempts == [] && !operation.entered && !operation.cancelRequested && !operation.ready
    case Created => operation.attempts == [] && !operation.entered && !operation.ready
    case InFactory =>
      && operation.entered && operation.ready && operation.attempts == []
      && (phase.Cancelling? ==> operation.cancelRequested)
    case InCommit(_) => operation.entered && operation.ready && operation.attempts == [] && phase.Committing?
    case Publishing =>
      && operation.entered && operation.ready && |operation.attempts| == 1
      && (phase.Cancelling? || phase.Committed?)
    case PublishingEarly =>
      && !operation.entered && operation.stoppedEarly && phase.Cancelling?
      && operation.ready && !operation.cancelRequested && operation.attempts != []
    case Ended =>
      && !operation.entered && operation.stoppedEarly && phase.Cancelling?
      && (operation.attempts != [] <==> operation.ready || operation.starter.StarterPublishing?)
      && (operation.ready <==> !operation.cancelRequested)
  }

  predicate StarterOk(phase: Phase, operation: Operation) {
    && (operation.starter.Holding? <==> phase.Reserved?)
    && (operation.consumed <==> !phase.Reserved?)
    && (operation.starter.Holding? || operation.starter.Emitting? ==> operation.task.NotCreated?)
    && (operation.starter.StarterPublishing? ==> operation.task.Ended?)
    && (operation.starter.StarterDone? ==> operation.ready)
    && (operation.starterCancelled <==> operation.starter.AwaitingTask? || operation.starter.StarterPublishing?)
  }

  predicate ActiveOk(session: Session, operation: Operation) {
    && session.phase.Some?
    && operation.released == 0
    && PhaseOk(session.phase.value, operation)
    && TaskOk(session.phase.value, operation)
    && StarterOk(session.phase.value, operation)
    && (operation.commitStarted ==> session.phase.value.Committing? || session.phase.value.Committed?)
    && (operation.cancelAccepted || operation.stoppedEarly || operation.cancelRequested ==>
          session.phase.value.Cancelling?)
    && (session.phase.value.Committed? <==> operation.committed.Some?)
    && session.committedTerminal == operation.committed
  }

  /** An operation that is no longer active has left everything behind. */
  predicate PastOk(operation: Operation) {
    && operation.released == 1 && operation.consumed
    && (operation.task.Ended? || operation.task.NotCreated?)
    && (operation.task.Ended? && operation.entered ==> operation.ready && |operation.attempts| == 1)
    && (operation.task.Ended? && !operation.entered ==>
          operation.stoppedEarly && operation.starterCancelled && operation.attempts != [])
    && (operation.task.NotCreated? ==> operation.attempts == [] && !operation.entered)
    && (operation.starter.Holding? || operation.starter.StarterDone? || operation.starter.AwaitingTask?)
  }

  predicate All(attempts: seq<Terminal>, terminal: Terminal) {
    forall i | 0 <= i < |attempts| :: attempts[i] == terminal
  }

  /** The outcome of one operation is one decision. */
  predicate DecidedOnce(operation: Operation) {
    && (operation.cancelAccepted || operation.cancelRequested ==>
          !operation.commitStarted && operation.committed.None?)
    && (operation.committed.Some? ==> All(operation.attempts, operation.committed.value))
    && (operation.committed.None? ==> All(operation.attempts, Cancelled))
    && operation.committed != Some(Cancelled)
    && (operation.stoppedEarly ==> !operation.entered)
    && (operation.commitStarted && operation.attempts != [] ==> operation.committed.Some?)
  }

  ghost predicate Valid(session: Session) {
    && !session.leaseLost
    && (session.activeId.None? <==> session.phase.None?)
    && (session.activeId.Some? ==>
          && session.activeId.value == |session.operations| - 1
          && session.lease == Some(OperationLease(session.activeId.value))
          && ActiveOk(session, session.operations[session.activeId.value])
          && session.activeTask ==
             (if session.operations[session.activeId.value].task.NotCreated? then None else session.activeId))
    && (session.activeId.None? ==>
          && (session.lease.Some? ==> session.lease.value.ExclusiveLease?)
          && session.committedTerminal.None? && session.activeTask.None?)
    && (forall id | 0 <= id < |session.operations| && session.activeId != Some(id) :: PastOk(session.operations[id]))
    && (forall id | 0 <= id < |session.operations| :: DecidedOnce(session.operations[id]))
  }

  // ---- one step -----------------------------------------------------------------

  /** What a step never takes back. */
  predicate Extends(before: Operation, after: Operation) {
    && (before.cancelAccepted ==> after.cancelAccepted && after.cancelRequested == before.cancelRequested)
    && (before.entered ==> after.entered)
    && (!before.task.NotCreated? ==> !after.task.NotCreated?)
    && (before.stoppedEarly ==> after.stoppedEarly)
    && (before.commitStarted ==> after.commitStarted)
    && (before.committed.Some? ==> after.committed == before.committed)
    && before.attempts <= after.attempts
    && before.released <= after.released
  }

  /** A valid session that takes nothing back from any operation of the one before. */
  ghost predicate Leads(session: Session, next: Session) {
    && Valid(next)
    && |session.operations| <= |next.operations|
    && forall id | 0 <= id < |session.operations| :: Extends(session.operations[id], next.operations[id])
  }

  /** The session after its active operation has changed and is still active. */
  ghost predicate StillActive(session: Session, next: Session, id: nat) {
    && session.activeId == Some(id) && next.activeId == Some(id)
    && id < |session.operations| == |next.operations|
    && next.operations == session.operations[id := next.operations[id]]
    && next.lease == session.lease && next.leaseLost == session.leaseLost
    && ActiveOk(next, next.operations[id]) && DecidedOnce(next.operations[id])
    && Extends(session.operations[id], next.operations[id])
    && next.activeTask == (if next.operations[id].task.NotCreated? then None else Some(id))
  }

  lemma ActiveStep(session: Session, next: Session, id: nat)
    requires Valid(session) && id < |session.operations| && |next.operations| == |session.operations|
    requires StillActive(session, next, id)
    ensures Leads(session, next)
  {
  }

  /** The session after its active operation has ended and let everything go. */
  lemma RetiringStep(session: Session, next: Session, id: nat)
    requires Valid(session) && id < |session.operations| && session.activeId == Some(id)
    requires |next.operations| == |session.operations|
    requires next.operations == session.operations[id := next.operations[id]]
    requires next.activeId.None? && next.phase.None? && next.committedTerminal.None? && next.activeTask.None?
    requires next.lease.None? && next.leaseLost == session.leaseLost
    requires PastOk(next.operations[id]) && DecidedOnce(next.operations[id])
    requires Extends(session.operations[id], next.operations[id])
    ensures Leads(session, next)
  {
  }

  /** The session after the starter of a past operation has returned. */
  lemma PastStep(session: Session, id: nat)
    requires Valid(session) && id < |session.operations| && session.activeId != Some(id)
    ensures Leads(
              session,
              With(session, id, session.operations[id].(starter := StarterDone)).(starterTask := None))
  {
    var next := With(session, id, session.operations[id].(starter := StarterDone)).(starterTask := None);
    PastStarterReturns(session.operations[id]);
    forall k | 0 <= k < |session.operations|
      ensures Extends(session.operations[k], next.operations[k])
    {
    }
    hide PastOk, DecidedOnce, Extends, PhaseOk, TaskOk, StarterOk;
  }

  lemma PastStarterReturns(operation: Operation)
    requires PastOk(operation) && DecidedOnce(operation)
    ensures var done := operation.(starter := StarterDone);
            PastOk(done) && DecidedOnce(done) && Extends(operation, done)
  {
  }

  lemma FactoryEndsStep(session: Session, id: nat, terminal: Terminal)
    requires Valid(session) && id < |session.operations| && session.operations[id].task.InFactory?
    requires terminal != Cancelled
    ensures Leads(session, FactoryEnds(session, id, terminal))
  {
    assert session.activeId == Some(id);
    if session.phase == Some(Cancelling) {
      ActiveStep(session, PublishCancelled(session, id), id);
    } else if session.phase == Some(Running) {
      ActiveStep(session, PublishCommitted(CommitTerminal(session, id, terminal), id), id);
    } else {
      ActiveStep(session, PublishCommitted(session, id), id);
    }
  }

  lemma FactoryCancelledStep(session: Session, id: nat)
    requires Valid(session) && id < |session.operations| && session.operations[id].task.InFactory?
    ensures Leads(session, if session.phase == Some(Phase.Committed) then PublishCommitted(session, id)
                           else PublishCancelled(session, id))
  {
    assert session.activeId == Some(id);
    ActiveStep(
      session,
      if session.phase == Some(Phase.Committed) then PublishCommitted(session, id) else PublishCancelled(session, id),
      id);
  }

  lemma FirstStep(session: Session, id: nat)
    requires Valid(session) && id < |session.operations| && session.operations[id].task.Created?
    ensures Leads(session, DoFirstStep(session, id))
  {
    assert session.activeId == Some(id);
    ActiveStep(session, DoFirstStep(session, id), id);
  }

  lemma CommitSteps(session: Session, id: nat, outcome: bool)
    requires Valid(session) && id < |session.operations|
    ensures session.operations[id].task.InFactory? ==> Leads(session, DoBeginCommit(session, id, outcome))
    ensures session.operations[id].task.InCommit? ==> Leads(session, DoEndCommit(session, id, outcome))
  {
    if session.operations[id].task.InFactory? && session.phase == Some(Running) {
      ActiveStep(session, DoBeginCommit(session, id, outcome), id);
    }
    if session.operations[id].task.InCommit? {
      assert session.activeId == Some(id);
      ActiveStep(session, DoEndCommit(session, id, outcome), id);
    }
  }

  lemma PublicationEndsStep(session: Session, id: nat)
    requires Valid(session) && Enabled(session, PublicationEnds(id))
    ensures Leads(session, DoPublicationEnds(session, id))
  {
    assert session.activeId == Some(id);
    if session.operations[id].task.PublishingEarly? {
      EarlyPublicationEnds(session, id);
    } else {
      PublicationRetires(session, id);
    }
  }

  lemma EarlyPublicationEnds(session: Session, id: nat)
    requires Valid(session) && id < |session.operations| && session.activeId == Some(id)
    requires session.operations[id].task.PublishingEarly?
    ensures Leads(session, DoPublicationEnds(session, id))
  {
    ActiveStep(session, DoPublicationEnds(session, id), id);
  }

  lemma PublicationRetires(session: Session, id: nat)
    requires Valid(session) && id < |session.operations| && session.activeId == Some(id)
    requires session.operations[id].task.Publishing? && !session.operations[id].starter.AwaitingReady?
    ensures Leads(session, DoPublicationEnds(session, id))
  {
    RetiringStep(session, DoPublicationEnds(session, id), id);
  }

  lemma RequestCancelStep(session: Session, id: nat, byCaller: bool)
    requires Valid(session) && session.activeId == Some(id)
    requires session.phase == Some(Starting) || session.phase == Some(Running)
    ensures Leads(session, RequestCancel(session, id, byCaller))
  {
    ActiveStep(session, RequestCancel(session, id, byCaller), id);
  }

  lemma StarterCancelledStep(session: Session, id: nat)
    requires Valid(session) && Enabled(session, StarterCancelled(id))
    ensures Leads(session, DoStarterCancelled(session, id))
  {
    assert session.activeId == Some(id);
    if session.operations[id].starter.Emitting? {
      EmittingStarterCancelled(session, id);
    } else {
      WaitingStarterCancelled(session, id);
    }
  }

  lemma EmittingStarterCancelled(session: Session, id: nat)
    requires Valid(session) && id < |session.operations| && session.activeId == Some(id)
    requires session.operations[id].starter.Emitting?
    ensures Leads(session, DoStarterCancelled(session, id))
  {
    RetiringStep(session, DoStarterCancelled(session, id), id);
  }

  lemma WaitingStarterCancelled(session: Session, id: nat)
    requires Valid(session) && id < |session.operations| && session.activeId == Some(id)
    requires session.operations[id].starter.AwaitingReady?
    ensures Leads(session, DoStarterCancelled(session, id))
  {
    ActiveStep(session, DoStarterCancelled(session, id), id);
  }

  lemma StarterCleansUpStep(session: Session, id: nat)
    requires Valid(session) && Enabled(session, StarterPublicationEnds(id))
    ensures Leads(session, StarterCleansUp(session, id))
  {
    assert session.activeId == Some(id);
    RetiringStep(session, StarterCleansUp(session, id), id);
  }

  lemma StarterSeesTaskEndStep(session: Session, id: nat)
    requires Valid(session) && Enabled(session, StarterSeesTaskEnd(id))
    ensures Leads(session, DoStarterSeesTaskEnd(session, id))
  {
    if session.activeId == Some(id) {
      ActiveStep(session, DoStarterSeesTaskEnd(session, id), id);
    } else {
      PastStep(session, id);
    }
  }

  lemma StartStep(session: Session, id: nat)
    requires Valid(session) && Enabled(session, StartReserved(id))
    ensures Leads(session, DoStart(session, id))
  {
    if session.activeId == Some(id) {
      ActiveStep(session, DoStart(session, id), id);
    }
  }

  lemma EmitSteps(session: Session, id: nat)
    requires Valid(session) && id < |session.operations| && session.operations[id].starter.Emitting?
    ensures Leads(session, DoEmitReturns(session, id)) && Leads(session, EmitFails(session, id))
  {
    assert session.activeId == Some(id);
    ActiveStep(session, DoEmitReturns(session, id), id);
    RetiringStep(session, EmitFails(session, id), id);
  }

  lemma StarterWakesStep(session: Session, id: nat)
    requires Valid(session) && Enabled(session, StarterWakes(id))
    ensures Leads(session, Step(session, StarterWakes(id)))
  {
    assert session.activeId == Some(id);
    ActiveStep(session, Step(session, StarterWakes(id)), id);
  }

  lemma AbortStep(session: Session, id: nat)
    requires Valid(session) && id < |session.operations|
    ensures Leads(session, DoAbort(session, id))
  {
    if !session.operations[id].consumed {
      assert session.activeId == Some(id);
      RetiringStep(session, DoAbort(session, id), id);
    }
  }

  lemma TaskStepLeads(session: Session, event: Event)
    requires Valid(session) && Enabled(session, event)
    requires AboutTask(event)
    ensures Leads(session, Step(session, event))
  {
    match event {
      case TaskFirstStep(id) => FirstStep(session, id);
      case BeginCommit(id, success) => CommitSteps(session, id, success);
      case EndCommit(id, returned) => CommitSteps(session, id, returned);
      case FactoryReturns(id) => FactoryEndsStep(session, id, Completed);
      case FactoryRaises(id) => FactoryEndsStep(session, id, Failed);
      case FactoryCancelled(id) => FactoryCancelledStep(session, id);
      case PublicationEnds(id) => PublicationEndsStep(session, id);
    }
  }

  lemma StarterStepLeads(session: Session, event: Event)
    requires Valid(session) && Enabled(session, event)
    requires AboutStarter(event)
    ensures Leads(session, Step(session, event))
  {
    match event {
      case StartReserved(id) => StartStep(session, id);
      case EmitReturns(id) => EmitSteps(session, id);
      case EmitRaises(id) => EmitSteps(session, id);
      case StarterWakes(id) => StarterWakesStep(session, id);
      case StarterCancelled(id) => StarterCancelledStep(session, id);
      case StarterSeesTaskEnd(id) => StarterSeesTaskEndStep(session, id);
      case StarterPublicationEnds(id) => StarterCleansUpStep(session, id);
    }
  }

  lemma ReserveStep(session: Session, admitted: bool)
    requires Valid(session)
    ensures Leads(session, DoReserve(session, admitted))
  {
  }

  lemma ControlStepLeads(session: Session, event: Event)
    requires Valid(session) && Enabled(session, event)
    requires event.Reserve? || event.Abort? || event.Cancel? || event.BeginShutdown? || event.ShutdownCancelsTask?
             || event.AcquireExclusive? || event.ReleaseExclusive?
    ensures Leads(session, Step(session, event))
  {
    match event {
      case Reserve(admitted) => ReserveStep(session, admitted);
      case Abort(id) => AbortStep(session, id);
      case Cancel(id) =>
        if CancelReturnsTrue(session, id) {
          RequestCancelStep(session, id, true);
        }
      case ShutdownCancelsTask =>
        if session.activeTask.Some? && session.phase == Some(Running) {
          RequestCancelStep(session, session.activeTask.value, false);
        }
      case BeginShutdown =>
      case AcquireExclusive =>
      case ReleaseExclusive =>
    }
  }

  predicate AboutTask(event: Event) {
    event.TaskFirstStep? || event.BeginCommit? || event.EndCommit? || event.FactoryReturns?
    || event.FactoryRaises? || event.FactoryCancelled? || event.PublicationEnds?
  }

  predicate AboutStarter(event: Event) {
    event.StartReserved? || event.EmitReturns? || event.EmitRaises? || event.StarterWakes?
    || event.StarterCancelled? || event.StarterSeesTaskEnd? || event.StarterPublicationEnds?
  }

  /** Every atomic section of every coroutine keeps the invariant and takes nothing back. */
  lemma StepLeads(session: Session, event: Event)
    requires Valid(session) && Enabled(session, event)
    ensures Leads(session, Step(session, event))
  {
    if AboutTask(event) {
      TaskStepLeads(session, event);
    } else if AboutStarter(event) {
      StarterStepLeads(session, event);
    } else {
      ControlStepLeads(session, event);
    }
  }

  // ---- whole runs ---------------------------------------------------------------

  function RunTo(events: seq<Event>): Option<Session> {
    if events == [] then Some(NEW_SESSION)
    else
      match RunTo(events[..|events| - 1])
      case None => None
      case Some(session) =>
        var event := events[|events| - 1];
        if Enabled(session, event) then Some(Step(session, event)) else None
  }

  predicate Happens(events: seq<Event>) {
    RunTo(events).Some?
  }

  function After(events: seq<Event>): Session
    requires Happens(events)
  {
    RunTo(events).value
  }

  lemma {:induction false} RunKeepsValid(events: seq<Event>)
    requires Happens(events)
    ensures Valid(After(events))
  {
    if events != [] {
      RunKeepsValid(events[..|events| - 1]);
      StepLeads(After(events[..|events| - 1]), events[|events| - 1]);
    }
  }

  /** At every await the active id is set exactly while the arbiter holds that operation's lease. */
  lemma ActiveExactlyWhileLeased(events: seq<Event>, id: nat)
    requires Happens(events)
    ensures After(events).activeId == Some(id) <==> After(events).lease == Some(OperationLease(id))
    ensures !After(events).leaseLost
  {
    RunKeepsValid(events);
  }

  /**
   One terminal attempt and one release, for every operation whose factory was entered.
   An operation stopped before that frees its lease only if its starter was cancelled
   too: without that, an ended task has freed its lease exactly if it was not stopped early.
   */
  lemma EndedExactlyOnce(events: seq<Event>, id: nat)
    requires Happens(events) && id < |After(events).operations|
    ensures var operation := After(events).operations[id];
            && operation.released <= 1
            && (operation.entered ==> |operation.attempts| <= 1)
            && (operation.task.Ended? && operation.entered ==> |operation.attempts| == 1 && operation.released == 1)
            && (operation.released == 1 <==> After(events).activeId != Some(id))
            && (operation.task.Ended? ==> (operation.entered <==> !operation.stoppedEarly))
            && (operation.task.Ended? && !operation.starterCancelled ==>
                  (operation.released == 1 <==> !operation.stoppedEarly))
  {
    RunKeepsValid(events);
  }

  // ---- progress -----------------------------------------------------------------

  /** What an operation whose factory was entered can always do next towards its end. */
  function Onward(session: Session, id: nat): Event
    requires id < |session.operations|
  {
    var operation := session.operations[id];
    if operation.task.InCommit? then EndCommit(id, true)
    else if operation.task.InFactory? then FactoryReturns(id)
    else if operation.starter.AwaitingReady? then StarterWakes(id)
    else PublicationEnds(id)
  }

  function StepsLeft(operation: Operation): (steps: nat)
    ensures steps <= 4
  {
    match operation.task
    case Ended => 0
    case InFactory => 3
    case InCommit(_) => 4
    case _ => if operation.starter.AwaitingReady? then 2 else 1
  }

  lemma OnwardStep(session: Session, id: nat)
    requires Valid(session) && id < |session.operations|
    requires session.operations[id].entered && !session.operations[id].task.Ended?
    ensures Enabled(session, Onward(session, id))
    ensures var next := Step(session, Onward(session, id));
            && id < |next.operations| && next.operations[id].entered
            && StepsLeft(next.operations[id]) < StepsLeft(session.operations[id])
  {
    assert session.activeId == Some(id);
    var operation := session.operations[id];
    if operation.task.InCommit? {
      OnwardFromCommit(session, id);
    } else if operation.task.InFactory? {
      OnwardFromFactory(session, id);
    } else {
      OnwardFromPublishing(session, id);
    }
  }

  lemma OnwardFromCommit(session: Session, id: nat)
    requires id < |session.operations| && session.operations[id].entered && session.operations[id].task.InCommit?
    ensures Enabled(session, EndCommit(id, true))
    ensures var next := DoEndCommit(session, id, true);
            id < |next.operations| && next.operations[id].entered && next.operations[id].task.InFactory?
  {
  }

  lemma OnwardFromFactory(session: Session, id: nat)
    requires id < |session.operations| && session.activeId == Some(id) && ActiveOk(session, session.operations[id])
    requires session.operations[id].entered && session.operations[id].task.InFactory?
    ensures Enabled(session, FactoryReturns(id))
    ensures var next := FactoryEnds(session, id, Completed);
            id < |next.operations| && next.operations[id].entered && next.operations[id].task.Publishing?
  {
  }

  lemma OnwardFromPublishing(session: Session, id: nat)
    requires id < |session.operations| && session.activeId == Some(id) && ActiveOk(session, session.operations[id])
    requires session.operations[id].entered && session.operations[id].task.Publishing?
    ensures Enabled(session, Onward(session, id))
    ensures var next := Step(session, Onward(session, id));
            && id < |next.operations| && next.operations[id].entered
            && StepsLeft(next.operations[id]) < StepsLeft(session.operations[id])
  {
    if session.operations[id].starter.AwaitingReady? {
      OnwardFromWaiting(session, id);
    } else {
      OnwardToEnd(session, id);
    }
  }

  lemma OnwardFromWaiting(session: Session, id: nat)
    requires id < |session.operations| && session.operations[id].entered && session.operations[id].ready
    requires session.operations[id].task.Publishing? && session.operations[id].starter.AwaitingReady?
    ensures Enabled(session, StarterWakes(id))
    ensures var next := Step(session, StarterWakes(id));
            && id < |next.operations|
            && next.operations[id] == session.operations[id].(starter := StarterDone)
  {
  }

  lemma OnwardToEnd(session: Session, id: nat)
    requires id < |session.operations| && session.operations[id].entered
    requires session.operations[id].task.Publishing? && !session.operations[id].starter.AwaitingReady?
    ensures Enabled(session, PublicationEnds(id))
    ensures var next := DoPublicationEnds(session, id);
            id < |next.operations| && next.operations[id].entered && next.operations[id].task.Ended?
  {
    var ended := With(session, id, session.operations[id].(task := Ended));
    ReleaseChangesOnlyLease(Idle(ended).(activeTask := None), id);
    hide Release;
  }

  lemma ReleaseChangesOnlyLease(session: Session, id: nat)
    requires id < |session.operations|
    ensures |Release(session, id).operations| == |session.operations|
    ensures Release(session, id).operations[id].task == session.operations[id].task
    ensures Release(session, id).operations[id].entered == session.operations[id].entered
  {
  }

  /**
   No operation is stuck: from every reachable session, one whose factory was entered has
   a continuation of at most four events in which its task ends and its lease is free.
   */
  lemma {:induction false} EnteredOperationCanEnd(events: seq<Event>, id: nat) returns (longer: seq<Event>)
    requires Happens(events) && id < |After(events).operations| && After(events).operations[id].entered
    ensures Happens(longer) && events <= longer && |longer| <= |events| + StepsLeft(After(events).operations[id])
    ensures id < |After(longer).operations| && After(longer).lease != Some(OperationLease(id))
    ensures var operation := After(longer).operations[id];
            operation.task.Ended? && operation.released == 1 && |operation.attempts| == 1
    decreases StepsLeft(After(events).operations[id])
  {
    RunKeepsValid(events);
    hide RunTo, Happens, After, Step, Enabled, Valid, Onward, StepsLeft;
    if After(events).operations[id].task.Ended? {
      longer := events;
      EndedExactlyOnce(events, id);
      ActiveExactlyWhileLeased(events, id);
    } else {
      var event := Onward(After(events), id);
      OnwardStep(After(events), id);
      RunAppend(events, event);
      longer := EnteredOperationCanEnd(events + [event], id);
    }
  }

  lemma {:induction false} RunExtends(events: seq<Event>, n: nat, id: nat)
    requires n <= |events| && Happens(events) && Happens(events[..n]) && id < |After(events[..n]).operations|
    ensures id < |After(events).operations|
    ensures Extends(After(events[..n]).operations[id], After(events).operations[id])
    decreases |events|
  {
    if n == |events| {
      assert events[..n] == events;
    } else {
      var earlier := events[..|events| - 1];
      assert earlier[..n] == events[..n];
      RunExtends(earlier, n, id);
      RunKeepsValid(earlier);
      StepLeads(After(earlier), events[|events| - 1]);
    }
  }

  /**
   Cancel and commit are linearized. If cancel returned True after the first n events,
   then however the run goes on nothing but CANCELLED is ever published for that
   operation and no commit of it starts.
   */
  lemma AcceptedCancelIsFinal(events: seq<Event>, n: nat, id: nat)
    requires n < |events| && Happens(events) && Happens(events[..n])
    requires events[n] == Cancel(id) && CancelReturnsTrue(After(events[..n]), id)
    ensures id < |After(events).operations|
    ensures var operation := After(events).operations[id];
            All(operation.attempts, Cancelled) && !operation.commitStarted && operation.committed.None?
  {
    RunKeepsValid(events[..n]);
    PrefixHappens(events, n + 1);
    assert events[..n + 1][..n] == events[..n];
    RunExtends(events, n + 1, id);
    RunKeepsValid(events);
  }

  /** Once a commit has started, cancel returns False for good and the committed outcome is what is published. */
  lemma StartedCommitIsFinal(events: seq<Event>, n: nat, id: nat)
    requires n <= |events| && Happens(events) && Happens(events[..n]) && id < |After(events[..n]).operations|
    requires After(events[..n]).operations[id].commitStarted
    ensures id < |After(events).operations|
    ensures !CancelReturnsTrue(After(events), id)
    ensures var operation := After(events).operations[id];
            operation.attempts != [] ==>
              operation.committed.Some? && operation.committed.value != Cancelled
              && All(operation.attempts, operation.committed.value)
  {
    RunExtends(events, n, id);
    RunKeepsValid(events);
  }

  lemma {:induction false} PrefixHappens(events: seq<Event>, n: nat)
    requires n <= |events| && Happens(events)
    ensures Happens(events[..n])
    decreases |events| - n
  {
    if n == |events| {
      assert events[..n] == events;
    } else {
      PrefixHappens(events, n + 1);
      assert events[..n + 1][..n] == events[..n];
    }
  }

  // ---- the lease a cancel while STARTING keeps ----------------------------------

  /** The operation is over and nothing is left that would release its lease. */
  predicate Abandoned(session: Session, id: nat) {
    && id < |session.operations| && session.activeId == Some(id)
    && session.operations[id].task.Ended? && session.operations[id].starter.StarterDone?
  }

  lemma RunAppend(events: seq<Event>, event: Event)
    requires Happens(events) && Enabled(After(events), event)
    ensures Happens(events + [event]) && After(events + [event]) == Step(After(events), event)
  {
    assert (events + [event])[..|events|] == events;
  }

  lemma CancelledStartIsEarly(session: Session, id: nat)
    requires Valid(session) && session.activeId == Some(id) && session.phase == Some(Starting)
    ensures Enabled(session, Cancel(id)) && CancelReturnsTrue(session, id)
    ensures var cancelled := Step(session, Cancel(id));
            && Enabled(cancelled, EmitReturns(id))
            && var created := Step(cancelled, EmitReturns(id));
               && created.activeId == Some(id) && created.phase == Some(Cancelling)
               && created.operations[id].task.Created? && !created.operations[id].cancelRequested
               && created.operations[id].starter.AwaitingReady?
  {
  }

  lemma EarlyStopAbandons(session: Session, id: nat)
    requires Valid(session) && session.activeId == Some(id) && session.phase == Some(Cancelling)
    requires session.operations[id].task.Created? && !session.operations[id].cancelRequested
    requires session.operations[id].starter.AwaitingReady?
    ensures var stepped := Step(session, TaskFirstStep(id));
            && Enabled(stepped, StarterWakes(id))
            && var woken := Step(stepped, StarterWakes(id));
               && Enabled(woken, PublicationEnds(id))
               && Abandoned(Step(woken, PublicationEnds(id)), id)
  {
  }

  /** A cancel while an operation's start is being announced can leave its lease abandoned. */
  lemma CancelWhileStartingAbandonsLease(events: seq<Event>, id: nat) returns (more: seq<Event>)
    requires Happens(events) && After(events).activeId == Some(id) && After(events).phase == Some(Starting)
    ensures more == events + [Cancel(id)] + [EmitReturns(id)] + [TaskFirstStep(id)] + [StarterWakes(id)]
                    + [PublicationEnds(id)]
    ensures Happens(more) && Abandoned(After(more), id)
  {
    RunKeepsValid(events);
    CancelledStartIsEarly(After(events), id);
    RunAppend(events, Cancel(id));
    more := events + [Cancel(id)];
    RunAppend(more, EmitReturns(id));
    more := more + [EmitReturns(id)];
    RunKeepsValid(more);
    EarlyStopAbandons(After(more), id);
    RunAppend(more, TaskFirstStep(id));
    more := more + [TaskFirstStep(id)];
    RunAppend(more, StarterWakes(id));
    more := more + [StarterWakes(id)];
    RunAppend(more, PublicationEnds(id));
    more := more + [PublicationEnds(id)];
  }

  /** The shortest such run: one operation is reserved, started, and cancelled while it is announced. */
  lemma SomeLeaseIsAbandoned() returns (events: seq<Event>)
    ensures |events| == 7 && Happens(events) && Abandoned(After(events), 0)
    ensures After(events).lease == Some(OperationLease(0)) && DoReserve(After(events), true) == After(events)
  {
    assert Happens([]) && After([]) == NEW_SESSION;
    RunAppend([], Reserve(true));
    RunAppend([] + [Reserve(true)], StartReserved(0));
    events := CancelWhileStartingAbandonsLease([] + [Reserve(true)] + [StartReserved(0)], 0);
    RunKeepsValid(events);
  }

  /** And no later event, of any kind, frees it: every further reservation is refused. */
  lemma {:induction false} AbandonedForever(events: seq<Event>, n: nat, id: nat)
    requires n <= |events| && Happens(events) && Happens(events[..n]) && Abandoned(After(events[..n]), id)
    ensures Abandoned(After(events), id) && DoReserve(After(events), true) == After(events)
    decreases |events|
  {
    if n == |events| {
      assert events[..n] == events;
    } else {
      var earlier := events[..|events| - 1];
      assert earlier[..n] == events[..n];
      AbandonedForever(earlier, n, id);
      RunKeepsValid(earlier);
      AbandonedStep(After(earlier), events[|events| - 1], id);
    }
  }

  lemma AbandonedStep(session: Session, event: Event, id: nat)
    requires Valid(session) && Enabled(session, event) && Abandoned(session, id)
    ensures Abandoned(Step(session, event), id)
  {
    NoTaskIsLeft(session, event, id);
    if AboutStarter(event) {
      AbandonedByStarter(session, event, id);
    } else {
      AbandonedByControl(session, event, id);
    }
  }

  /** No task can make a step any more. */
  lemma NoTaskIsLeft(session: Session, event: Event, id: nat)
    requires Valid(session) && Enabled(session, event) && Abandoned(session, id)
    ensures !AboutTask(event)
  {
  }

  lemma AbandonedByStarter(session: Session, event: Event, id: nat)
    requires Valid(session) && Enabled(session, event) && Abandoned(session, id) && AboutStarter(event)
    ensures Abandoned(Step(session, event), id)
  {
  }

  lemma AbandonedByControl(session: Session, event: Event, id: nat)
    requires Valid(session) && Enabled(session, event) && Abandoned(session, id)
    requires !AboutTask(event) && !AboutStarter(event)
    ensures Abandoned(Step(session, event), id)
  {
  }

  // ---- the starter a cancel before the first step strands -------------------------

  /** The task never began, and nothing is left that would wake the starter waiting for it. */
  predicate Stranded(session: Session, id: nat) {
    && id < |session.operations| && session.activeId == Some(id)
    && session.operations[id].task.Ended? && session.operations[id].starter.AwaitingReady?
    && !session.operations[id].ready
  }

  lemma CancelledTaskNeverBegins(session: Session, id: nat)
    requires Valid(session) && session.activeId == Some(id) && session.phase == Some(Running)
    requires session.operations[id].task.Created?
    ensures Enabled(session, Cancel(id)) && CancelReturnsTrue(session, id)
    ensures var cancelled := Step(session, Cancel(id));
            && Enabled(cancelled, TaskFirstStep(id))
            && Stranded(Step(cancelled, TaskFirstStep(id)), id)
  {
  }

  /** A cancel between the creation of an operation's task and its first step strands its starter. */
  lemma CancelBeforeFirstStepStrands(events: seq<Event>, id: nat) returns (more: seq<Event>)
    requires Happens(events) && After(events).activeId == Some(id) && After(events).phase == Some(Running)
    requires id < |After(events).operations| && After(events).operations[id].task.Created?
    ensures more == events + [Cancel(id)] + [TaskFirstStep(id)]
    ensures Happens(more) && Stranded(After(more), id) && CancelReturnsTrue(After(events), id)
  {
    RunKeepsValid(events);
    CancelledTaskNeverBegins(After(events), id);
    RunAppend(events, Cancel(id));
    RunAppend(events + [Cancel(id)], TaskFirstStep(id));
    more := events + [Cancel(id)] + [TaskFirstStep(id)];
  }

  /** The shortest such run: the cancel returns True, nothing is ever published, and the lease is held. */
  lemma SomeStarterIsStranded() returns (events: seq<Event>)
    ensures |events| == 5 && Happens(events) && Stranded(After(events), 0)
    ensures events[3] == Cancel(0) && Happens(events[..3]) && CancelReturnsTrue(After(events[..3]), 0)
    ensures After(events).lease == Some(OperationLease(0)) && After(events).operations[0].attempts == []
  {
    assert Happens([]) && After([]) == NEW_SESSION;
    RunAppend([], Reserve(true));
    RunAppend([] + [Reserve(true)], StartReserved(0));
    var running := [] + [Reserve(true)] + [StartReserved(0)] + [EmitReturns(0)];
    RunAppend([] + [Reserve(true)] + [StartReserved(0)], EmitReturns(0));
    events := CancelBeforeFirstStepStrands(running, 0);
    assert events[..3] == running;
    RunKeepsValid(events);
  }

  /** However the run goes on, nothing is published and no reservation admitted until that starter is cancelled. */
  lemma {:induction false} StrandedUntilStarterCancelled(events: seq<Event>, n: nat, id: nat)
    requires n <= |events| && Happens(events) && Happens(events[..n]) && Stranded(After(events[..n]), id)
    requires StarterCancelled(id) !in events[n..]
    ensures Stranded(After(events), id) && After(events).operations[id].attempts == []
    ensures After(events).lease == Some(OperationLease(id)) && DoReserve(After(events), true) == After(events)
    decreases |events|
  {
    RunKeepsValid(events);
    if n == |events| {
      assert events[..n] == events;
    } else {
      var earlier, last := events[..|events| - 1], events[|events| - 1];
      assert earlier[..n] == events[..n] && earlier[n..] <= events[n..];
      assert events[n..][|events| - 1 - n] == last;
      StrandedUntilStarterCancelled(earlier, n, id);
      RunKeepsValid(earlier);
      StrandedStep(After(earlier), last, id);
    }
  }

  lemma StrandedStep(session: Session, event: Event, id: nat)
    requires Valid(session) && Enabled(session, event) && Stranded(session, id) && event != StarterCancelled(id)
    ensures Stranded(Step(session, event), id)
  {
    if AboutStarter(event) {
      StrandedByStarter(session, event, id);
    } else {
      StrandedByControl(session, event, id);
    }
  }

  lemma StrandedByStarter(session: Session, event: Event, id: nat)
    requires Valid(session) && Enabled(session, event) && Stranded(session, id) && AboutStarter(event)
    requires event != StarterCancelled(id)
    ensures Stranded(Step(session, event), id)
  {
  }

  lemma StrandedByControl(session: Session, event: Event, id: nat)
    requires Valid(session) && Enabled(session, event) && Stranded(session, id) && !AboutStarter(event)
    ensures Stranded(Step(session, event), id)
  {
    assert !AboutTask(event);
  }

  /** Neither its task nor its starter has anything left to do, unless the starter is cancelled. */
  predicate AtRest(operation: Operation) {
    && (operation.task.NotCreated? || operation.task.Ended?)
    && (operation.starter.StarterDone? || (operation.starter.AwaitingReady? && !operation.ready))
  }

  /**
   When exactly an operation whose cancel was accepted has had CANCELLED published: when
   its task was created, and either its body began or its starter was cancelled.
   */
  lemma CancelledOperationAtRest(events: seq<Event>, id: nat)
    requires Happens(events) && id < |After(events).operations|
    requires After(events).operations[id].cancelAccepted && AtRest(After(events).operations[id])
    ensures var operation := After(events).operations[id];
            && (operation.attempts != [] <==>
                operation.task.Ended? && (operation.ready || operation.starterCancelled))
            && All(operation.attempts, Cancelled)
            && (operation.starter.AwaitingReady? <==> Stranded(After(events), id))
  {
    RunKeepsValid(events);
  }

  /**
   What that means for a cancel that returned True. During STARTING it is published exactly
   if the task is created after all; during RUNNING exactly if the factory had been entered
   by then, or the starter is cancelled as well.
   */
  lemma WhenCancelIsPublished(events: seq<Event>, n: nat, id: nat)
    requires n < |events| && Happens(events) && Happens(events[..n])
    requires events[n] == Cancel(id) && CancelReturnsTrue(After(events[..n]), id)
    requires id < |After(events).operations| && AtRest(After(events).operations[id])
    ensures id < |After(events[..n]).operations|
    ensures var before, operation := After(events[..n]), After(events).operations[id];
            operation.attempts != [] <==>
            if before.phase == Some(Starting) then operation.task.Ended?
            else before.operations[id].entered || operation.starterCancelled
  {
    RunKeepsValid(events[..n]);
    PrefixHappens(events, n + 1);
    assert events[..n + 1][..n] == events[..n];
    CancelledState(After(events[..n]), id);
    RunExtends(events, n + 1, id);
    RunKeepsValid(events);
    CancelledOperationAtRest(events, id);
  }

  lemma CancelledState(session: Session, id: nat)
    requires Valid(session) && CancelReturnsTrue(session, id)
    ensures id < |session.operations|
    ensures var cancelled := DoCancel(session, id).operations[id];
            && cancelled.cancelAccepted && cancelled.entered == session.operations[id].entered
            && cancelled.cancelRequested == (session.phase == Some(Running))
            && (!cancelled.entered ==> cancelled.stoppedEarly)
            && (session.phase == Some(Starting) || !cancelled.task.NotCreated?)
  {
  }

  // ---- which outcome is published -------------------------------------------------

  predicate IsRunning(session: Session, id: nat) {
    session.activeId == Some(id) && session.phase == Some(Running)
  }

  ghost predicate RunningAfter(events: seq<Event>, id: nat) {
    Happens(events) && IsRunning(After(events), id)
  }

  /** A commit of this kind began while the operation was RUNNING. */
  ghost predicate Began(events: seq<Event>, id: nat, success: bool) {
    exists i :: 0 <= i < |events| && events[i] == BeginCommit(id, success) && RunningAfter(events[..i], id)
  }

  /** The operation completes: its factory returns while RUNNING, or the action of its begun completion does. */
  ghost predicate CompletesWith(earlier: seq<Event>, event: Event, id: nat) {
    || (event == FactoryReturns(id) && RunningAfter(earlier, id))
    || (event == EndCommit(id, true) && Began(earlier, id, true))
  }

  /** It fails: its factory raises while RUNNING, or any other begun commit ends. */
  ghost predicate FailsWith(earlier: seq<Event>, event: Event, id: nat) {
    || (event == FactoryRaises(id) && RunningAfter(earlier, id))
    || (event == EndCommit(id, true) && Began(earlier, id, false))
    || event == EndCommit(id, false)
  }

  /** It is asked to stop while RUNNING: by its caller, by shutdown, or by its cancelled starter. */
  ghost predicate StopsWith(earlier: seq<Event>, event: Event, id: nat) {
    (event == Cancel(id) || event == ShutdownCancelsTask || event == StarterCancelled(id)) && RunningAfter(earlier, id)
  }

  /** Its factory is cancelled although no outcome is committed. */
  ghost predicate FactoryStopsWith(earlier: seq<Event>, event: Event, id: nat) {
    event == FactoryCancelled(id) && !Completes(earlier, id) && !Fails(earlier, id)
  }

  ghost predicate Completes(events: seq<Event>, id: nat) {
    exists i :: 0 <= i < |events| && CompletesWith(events[..i], events[i], id)
  }

  ghost predicate Fails(events: seq<Event>, id: nat) {
    exists i :: 0 <= i < |events| && FailsWith(events[..i], events[i], id)
  }

  ghost predicate Stops(events: seq<Event>, id: nat) {
    exists i :: 0 <= i < |events| && StopsWith(events[..i], events[i], id)
  }

  ghost predicate FactoryStops(events: seq<Event>, id: nat) {
    exists i :: 0 <= i < |events| && FactoryStopsWith(events[..i], events[i], id)
  }

  lemma BeganNext(events: seq<Event>, event: Event, id: nat, success: bool)
    ensures Began(events + [event], id, success)
            <==> Began(events, id, success) || (event == BeginCommit(id, success) && RunningAfter(events, id))
  {
    hide RunningAfter;
    var all := events + [event];
    assert all[..|events|] == events;
    forall i | 0 <= i < |events|
      ensures all[..i] == events[..i] && all[i] == events[i]
    {
    }
    if Began(events, id, success) {
      var i :| 0 <= i < |events| && events[i] == BeginCommit(id, success) && RunningAfter(events[..i], id);
      assert all[i] == events[i];
    }
    assert all[|events|] == event;
  }

  lemma CompletesNext(events: seq<Event>, event: Event, id: nat)
    ensures Completes(events + [event], id) <==> Completes(events, id) || CompletesWith(events, event, id)
  {
    hide CompletesWith;
    var all := events + [event];
    assert all[..|events|] == events && all[|events|] == event;
    assert forall i | 0 <= i < |events| :: all[..i] == events[..i] && all[i] == events[i];
  }

  lemma FailsNext(events: seq<Event>, event: Event, id: nat)
    ensures Fails(events + [event], id) <==> Fails(events, id) || FailsWith(events, event, id)
  {
    hide FailsWith;
    var all := events + [event];
    assert all[..|events|] == events && all[|events|] == event;
    assert forall i | 0 <= i < |events| :: all[..i] == events[..i] && all[i] == events[i];
  }

  lemma StopsNext(events: seq<Event>, event: Event, id: nat)
    ensures Stops(events + [event], id) <==> Stops(events, id) || StopsWith(events, event, id)
  {
    hide StopsWith;
    var all := events + [event];
    assert all[..|events|] == events && all[|events|] == event;
    assert forall i | 0 <= i < |events| :: all[..i] == events[..i] && all[i] == events[i];
  }

  lemma FactoryStopsNext(events: seq<Event>, event: Event, id: nat)
    ensures FactoryStops(events + [event], id) <==> FactoryStops(events, id) || FactoryStopsWith(events, event, id)
  {
    hide FactoryStopsWith;
    var all := events + [event];
    assert all[..|events|] == events && all[|events|] == event;
    assert forall i | 0 <= i < |events| :: all[..i] == events[..i] && all[i] == events[i];
  }

  /** What one event does to an operation's decisions. */
  ghost predicate Decides(session: Session, event: Event, id: nat, before: Operation, after: Operation) {
    var running := IsRunning(session, id);
    var completes :=
      (event == FactoryReturns(id) && running) || (event == EndCommit(id, true) && before.task == InCommit(true));
    var fails := (event == FactoryRaises(id) && running) || (event.EndCommit? && event.id == id && !completes);
    var stops :=
      running && (event == Cancel(id) || event == ShutdownCancelsTask || event == StarterCancelled(id));
    && after.committed
       == (if completes then Some(Completed) else if fails then Some(Failed) else before.committed)
    && (after.cancelRequested <==> before.cancelRequested || stops)
    && (after.commitStarted <==> before.commitStarted || (event.BeginCommit? && event.id == id && running))
    && (after.task.InCommit? ==>
          after.task == before.task || (event == BeginCommit(id, after.task.success) && running))
    && (running ==> !before.commitStarted && before.committed.None? && !before.cancelRequested)
    && (after.attempts != before.attempts && after.entered && after.committed.None? ==>
          after.cancelRequested || event == FactoryCancelled(id))
    && (event == FactoryCancelled(id) && before.committed.None? ==> after.entered && after.attempts == [Cancelled])
    && (before.entered && before.attempts != [] ==>
          after.entered && after.attempts == before.attempts && after.committed == before.committed)
    && (after.entered && !before.entered ==> after.attempts == [])
  }

  /** The event is about this operation, or shuts it down. */
  predicate Concerns(session: Session, event: Event, id: nat) {
    match event
    case Reserve(_) => false
    case BeginShutdown => false
    case AcquireExclusive => false
    case ReleaseExclusive => false
    case ShutdownCancelsTask => session.activeTask == Some(id)
    case _ => event.id == id
  }

  /** Releasing changes one operation, and there only how often its lease was released. */
  lemma ReleaseOnlyCounts(session: Session, id: nat)
    requires id < |session.operations|
    ensures |Release(session, id).operations| == |session.operations|
    ensures var before, after := session.operations[id], Release(session, id).operations[id];
            after == before.(released := if before.released > 0 then before.released else 1)
    ensures forall other | 0 <= other < |session.operations| && other != id ::
              Release(session, id).operations[other] == session.operations[other]
  {
  }

  /** Only the operation with this number has changed, if any. */
  predicate OthersStay(session: Session, next: Session, id: nat) {
    && |next.operations| == |session.operations|
    && forall other | 0 <= other < |session.operations| && other != id ::
         next.operations[other] == session.operations[other]
  }

  lemma UnconcernedStays(session: Session, event: Event, id: nat)
    requires Enabled(session, event) && id < |session.operations| && !Concerns(session, event, id)
    ensures id < |Step(session, event).operations| && Step(session, event).operations[id] == session.operations[id]
  {
    if AboutTask(event) {
      TaskLeavesOthers(session, event);
      hide Step;
    } else if AboutStarter(event) {
      StarterLeavesOthers(session, event);
      hide Step;
    } else {
      UnconcernedByControl(session, event, id);
    }
  }

  lemma TaskLeavesOthers(session: Session, event: Event)
    requires Enabled(session, event) && AboutTask(event)
    ensures OthersStay(session, Step(session, event), event.id)
  {
    hide Release, DoPublicationEnds, FactoryEnds, PublishCommitted, PublishCancelled, OthersStay;
    if event.PublicationEnds? {
      PublicationLeavesOthers(session, event.id);
    } else if event.FactoryReturns? || event.FactoryRaises? || event.FactoryCancelled? {
      FactoryLeavesOthers(session, event.id, Completed);
      FactoryLeavesOthers(session, event.id, Failed);
    } else {
      CommitLeavesOthers(session, event);
    }
  }

  lemma CommitLeavesOthers(session: Session, event: Event)
    requires Enabled(session, event) && (event.TaskFirstStep? || event.BeginCommit? || event.EndCommit?)
    ensures OthersStay(session, Step(session, event), event.id)
  {
  }

  lemma FactoryLeavesOthers(session: Session, id: nat, terminal: Terminal)
    requires id < |session.operations|
    ensures OthersStay(session, FactoryEnds(session, id, terminal), id)
    ensures OthersStay(session, PublishCommitted(session, id), id)
    ensures OthersStay(session, PublishCancelled(session, id), id)
  {
  }

  lemma PublicationLeavesOthers(session: Session, id: nat)
    requires id < |session.operations|
    ensures OthersStay(session, DoPublicationEnds(session, id), id)
  {
    hide Release;
    ReleaseOnlyCounts(
      Idle(With(session, id, session.operations[id].(task := Ended))).(activeTask := None), id);
  }

  lemma StarterLeavesOthers(session: Session, event: Event)
    requires Enabled(session, event) && AboutStarter(event)
    ensures OthersStay(session, Step(session, event), event.id)
  {
    hide EmitFails, StarterCleansUp, OthersStay, DoStarterCancelled, DoStarterSeesTaskEnd, DoStart, DoEmitReturns;
    Cleaning(session, event.id);
    if event.StarterCancelled? {
      CancelLeavesOthers(session, event.id);
    } else {
      WaitingLeavesOthers(session, event.id);
    }
  }

  lemma CancelLeavesOthers(session: Session, id: nat)
    requires id < |session.operations|
    ensures OthersStay(session, DoStarterCancelled(session, id), id)
  {
    hide EmitFails;
    Cleaning(With(session, id, session.operations[id].(starterCancelled := true)), id);
  }

  lemma WaitingLeavesOthers(session: Session, id: nat)
    requires id < |session.operations|
    ensures OthersStay(session, DoStart(session, id), id) && OthersStay(session, DoEmitReturns(session, id), id)
    ensures OthersStay(session, DoStarterSeesTaskEnd(session, id), id)
    ensures OthersStay(session, With(session, id, session.operations[id].(starter := StarterDone)), id)
    ensures OthersStay(
      session, With(session, id, session.operations[id].(starter := StarterDone)).(starterTask := None), id)
  {
    hide StarterCleansUp;
    Cleaning(session, id);
  }

  /** Letting go ends the starter, and changes nothing else but the lease. */
  lemma Cleaning(session: Session, id: nat)
    requires id < |session.operations|
    ensures OthersStay(session, EmitFails(session, id), id) && OthersStay(session, StarterCleansUp(session, id), id)
    ensures SameDecisions(session.operations[id], EmitFails(session, id).operations[id])
    ensures SameDecisions(session.operations[id], StarterCleansUp(session, id).operations[id])
  {
    hide Release;
    var done := With(session, id, session.operations[id].(starter := StarterDone));
    ReleaseOnlyCounts(Idle(done).(activeReservation := None, starterTask := None), id);
    ReleaseOnlyCounts(Idle(done).(activeTask := None), id);
  }

  lemma UnconcernedByControl(session: Session, event: Event, id: nat)
    requires Enabled(session, event) && id < |session.operations| && !Concerns(session, event, id)
    requires !AboutTask(event) && !AboutStarter(event)
    ensures id < |Step(session, event).operations| && Step(session, event).operations[id] == session.operations[id]
  {
  }

  /** What the invariant says of one operation. */
  ghost predicate Sound(session: Session, id: nat)
    requires id < |session.operations|
  {
    var operation := session.operations[id];
    && DecidedOnce(operation)
    && (session.activeId == Some(id) ==>
          && ActiveOk(session, operation)
          && session.activeTask == (if operation.task.NotCreated? then None else Some(id)))
    && (session.activeId != Some(id) ==> PastOk(operation) && session.activeTask != Some(id))
  }

  lemma ValidIsSound(session: Session, id: nat)
    requires Valid(session) && id < |session.operations|
    ensures Sound(session, id)
  {
  }

  lemma FactoryEndDecides(session: Session, event: Event, id: nat)
    requires Enabled(session, event) && id < |session.operations| && Sound(session, id)
    requires event == FactoryReturns(id) || event == FactoryRaises(id)
    ensures Decides(session, event, id, session.operations[id], Step(session, event).operations[id])
  {
    assert session.activeId == Some(id);
  }

  lemma FactoryCancelDecides(session: Session, id: nat)
    requires Enabled(session, FactoryCancelled(id)) && id < |session.operations| && Sound(session, id)
    ensures Decides(
      session, FactoryCancelled(id), id, session.operations[id], Step(session, FactoryCancelled(id)).operations[id])
  {
    assert session.activeId == Some(id);
  }

  lemma CommitDecides(session: Session, event: Event, id: nat)
    requires Enabled(session, event) && id < |session.operations| && Sound(session, id)
    requires (event.BeginCommit? || event.EndCommit?) && event.id == id
    ensures Decides(session, event, id, session.operations[id], Step(session, event).operations[id])
  {
  }

  lemma FirstStepDecides(session: Session, id: nat)
    requires Enabled(session, TaskFirstStep(id)) && id < |session.operations| && Sound(session, id)
    ensures Decides(
      session, TaskFirstStep(id), id, session.operations[id], Step(session, TaskFirstStep(id)).operations[id])
  {
    if IsRunning(session, id) {
      RunningIsUndecided(session, id);
    }
    hide DecidedOnce;
  }

  lemma PublicationEndDecides(session: Session, id: nat)
    requires Enabled(session, PublicationEnds(id)) && id < |session.operations| && Sound(session, id)
    ensures |Step(session, PublicationEnds(id)).operations| == |session.operations|
    ensures Decides(
      session, PublicationEnds(id), id, session.operations[id], Step(session, PublicationEnds(id)).operations[id])
  {
    hide Release, DecidedOnce;
    ReleaseOnlyCounts(
      Idle(With(session, id, session.operations[id].(task := Ended))).(activeTask := None), id);
  }

  /** Nothing but the bookkeeping of lease, task and starter has changed. */
  predicate SameDecisions(before: Operation, after: Operation) {
    && after.committed == before.committed && after.commitStarted == before.commitStarted
    && after.cancelRequested == before.cancelRequested && (after.task == before.task || !after.task.InCommit?)
    && after.entered == before.entered && (after.entered ==> after.attempts == before.attempts)
  }

  lemma StarterKeepsDecisions(session: Session, event: Event, id: nat)
    requires Enabled(session, event) && id < |session.operations| && Sound(session, id)
    requires AboutStarter(event) && event.id == id && !event.StarterCancelled?
    ensures id < |Step(session, event).operations|
    ensures SameDecisions(session.operations[id], Step(session, event).operations[id])
  {
    hide EmitFails, StarterCleansUp, DoStarterSeesTaskEnd, Sound, SameDecisions;
    Cleaning(session, id);
    if event.StarterSeesTaskEnd? {
      TaskEndKeepsDecisions(session, id);
    }
    hide DoStart, DoEmitReturns;
    StartKeepsDecisions(session, id);
    EmitKeepsDecisions(session, id);
    WakingKeepsDecisions(session.operations[id]);
  }

  lemma StartKeepsDecisions(session: Session, id: nat)
    requires id < |session.operations|
    ensures |DoStart(session, id).operations| == |session.operations|
    ensures SameDecisions(session.operations[id], DoStart(session, id).operations[id])
  {
  }

  lemma EmitKeepsDecisions(session: Session, id: nat)
    requires id < |session.operations|
    ensures |DoEmitReturns(session, id).operations| == |session.operations|
    ensures SameDecisions(session.operations[id], DoEmitReturns(session, id).operations[id])
  {
  }

  lemma WakingKeepsDecisions(operation: Operation)
    ensures SameDecisions(operation, operation.(starter := StarterDone))
  {
  }

  lemma TaskEndKeepsDecisions(session: Session, id: nat)
    requires id < |session.operations| && Sound(session, id)
    requires session.operations[id].starter.AwaitingTask? && session.operations[id].task.Ended?
    ensures id < |DoStarterSeesTaskEnd(session, id).operations|
    ensures SameDecisions(session.operations[id], DoStarterSeesTaskEnd(session, id).operations[id])
  {
    hide StarterCleansUp, DecidedOnce;
    Cleaning(session, id);
  }

  lemma StarterCancelDecides(session: Session, id: nat)
    requires Enabled(session, StarterCancelled(id)) && id < |session.operations| && Sound(session, id)
    ensures id < |Step(session, StarterCancelled(id)).operations|
    ensures Decides(
      session, StarterCancelled(id), id, session.operations[id], Step(session, StarterCancelled(id)).operations[id])
  {
    if session.operations[id].starter.Emitting? {
      EmittingCancelDecides(session, id);
    } else {
      WaitingCancelDecides(session, id);
    }
    hide Sound, Decides, DoStarterCancelled;
  }

  lemma EmittingCancelDecides(session: Session, id: nat)
    requires id < |session.operations| && session.operations[id].starter.Emitting? && Sound(session, id)
    ensures id < |DoStarterCancelled(session, id).operations|
    ensures Decides(
      session, StarterCancelled(id), id, session.operations[id], DoStarterCancelled(session, id).operations[id])
  {
    hide EmitFails;
    Cleaning(With(session, id, session.operations[id].(starterCancelled := true)), id);
  }

  lemma WaitingCancelDecides(session: Session, id: nat)
    requires id < |session.operations| && session.operations[id].starter.AwaitingReady? && Sound(session, id)
    ensures id < |DoStarterCancelled(session, id).operations|
    ensures Decides(
      session, StarterCancelled(id), id, session.operations[id], DoStarterCancelled(session, id).operations[id])
  {
  }

  predicate DecidesNothing(event: Event) {
    event.Abort? || (AboutStarter(event) && !event.StarterCancelled?)
  }

  /** What a RUNNING operation has not decided yet. */
  lemma RunningIsUndecided(session: Session, id: nat)
    requires id < |session.operations| && Sound(session, id) && IsRunning(session, id)
    ensures var operation := session.operations[id];
            !operation.commitStarted && operation.committed.None? && !operation.cancelRequested
    ensures session.activeTask == Some(id)
  {
  }

  /** An event that is about something else decides nothing. */
  lemma UndecidedStays(session: Session, event: Event, id: nat, after: Operation)
    requires id < |session.operations| && Sound(session, id) && SameDecisions(session.operations[id], after)
    requires DecidesNothing(event) || !Concerns(session, event, id)
    ensures Decides(session, event, id, session.operations[id], after)
  {
    if IsRunning(session, id) {
      RunningIsUndecided(session, id);
    }
    IsOtherEvent(session, event, id);
    hide Sound, IsRunning, Concerns, AboutStarter, DecidesNothing;
  }

  lemma IsOtherEvent(session: Session, event: Event, id: nat)
    requires DecidesNothing(event) || !Concerns(session, event, id)
    ensures event != FactoryReturns(id) && event != FactoryRaises(id) && event != FactoryCancelled(id)
    ensures (event.BeginCommit? || event.EndCommit?) ==> event.id != id
    ensures event != Cancel(id) && event != StarterCancelled(id)
    ensures event == ShutdownCancelsTask ==> session.activeTask != Some(id)
  {
  }

  lemma StopDecides(session: Session, event: Event, id: nat)
    requires id < |session.operations| && Sound(session, id)
    requires Enabled(session, event)
    requires (event == ShutdownCancelsTask && session.activeTask == Some(id)) || event == Cancel(id)
    ensures id < |Step(session, event).operations|
    ensures Decides(session, event, id, session.operations[id], Step(session, event).operations[id])
  {
  }

  lemma TaskEventDecides(session: Session, event: Event, id: nat)
    requires Enabled(session, event) && id < |session.operations| && Sound(session, id)
    requires AboutTask(event) && event.id == id && id < |Step(session, event).operations|
    ensures Decides(session, event, id, session.operations[id], Step(session, event).operations[id])
  {
    hide Sound, Decides, Step, Enabled;
    if event.FactoryReturns? || event.FactoryRaises? {
      FactoryEndDecides(session, event, id);
    } else if event.FactoryCancelled? {
      FactoryCancelDecides(session, id);
    } else if event.BeginCommit? || event.EndCommit? {
      CommitDecides(session, event, id);
    } else if event.TaskFirstStep? {
      FirstStepDecides(session, id);
    } else {
      PublicationEndDecides(session, id);
    }
  }

  lemma StarterEventDecides(session: Session, event: Event, id: nat)
    requires Enabled(session, event) && id < |session.operations| && Sound(session, id)
    requires AboutStarter(event) && event.id == id
    ensures id < |Step(session, event).operations|
    ensures Decides(session, event, id, session.operations[id], Step(session, event).operations[id])
  {
    hide Sound, Decides, Step, Enabled, SameDecisions;
    if event.StarterCancelled? {
      StarterCancelDecides(session, id);
    } else {
      StarterKeepsDecisions(session, event, id);
      UndecidedStays(session, event, id, Step(session, event).operations[id]);
    }
  }

  lemma ControlEventDecides(session: Session, event: Event, id: nat)
    requires Enabled(session, event) && id < |session.operations| && Sound(session, id)
    requires !AboutTask(event) && !AboutStarter(event) && Concerns(session, event, id)
    requires id < |Step(session, event).operations|
    ensures Decides(session, event, id, session.operations[id], Step(session, event).operations[id])
  {
    if event.Abort? {
      AbortKeepsDecisions(session, id);
      hide DoAbort, Sound, Decides;
      UndecidedStays(session, event, id, Step(session, event).operations[id]);
    } else {
      hide Sound, Decides, Step;
      StopDecides(session, event, id);
    }
  }

  lemma AbortKeepsDecisions(session: Session, id: nat)
    requires id < |session.operations|
    ensures id < |DoAbort(session, id).operations|
    ensures SameDecisions(session.operations[id], DoAbort(session, id).operations[id])
  {
    hide Release;
    var consumed := With(session, id, session.operations[id].(consumed := true));
    ReleaseOnlyCounts(consumed, id);
    ReleaseOnlyCounts(Idle(consumed).(activeReservation := None, starterTask := None), id);
  }

  lemma EventDecides(session: Session, event: Event, id: nat)
    requires Valid(session) && Enabled(session, event) && id < |session.operations|
    ensures id < |Step(session, event).operations|
    ensures Decides(session, event, id, session.operations[id], Step(session, event).operations[id])
  {
    StepLeads(session, event);
    ValidIsSound(session, id);
    assert id < |Step(session, event).operations|;
    hide Valid, Step, Enabled, Decides, Sound, Leads;
    if !Concerns(session, event, id) {
      UnconcernedStays(session, event, id);
      UndecidedStays(session, event, id, session.operations[id]);
    } else if AboutTask(event) {
      TaskEventDecides(session, event, id);
    } else if AboutStarter(event) {
      StarterEventDecides(session, event, id);
    } else {
      ControlEventDecides(session, event, id);
    }
  }

  /** The decisions on record are those of the events so far. */
  ghost predicate Recorded(events: seq<Event>, id: nat, operation: Operation) {
    && (operation.committed == Some(Completed) <==> Completes(events, id))
    && (operation.committed == Some(Failed) <==> Fails(events, id))
    && (operation.cancelRequested <==> Stops(events, id))
    && (operation.task.InCommit? ==> Began(events, id, operation.task.success))
    && (operation.commitStarted <==> Began(events, id, true) || Began(events, id, false))
    && !(Began(events, id, true) && Began(events, id, false))
    && (operation.entered && operation.attempts != [] && operation.committed.None? ==>
          Stops(events, id) || FactoryStops(events, id))
    && (FactoryStops(events, id) ==>
          operation.entered && operation.attempts == [Cancelled] && operation.committed.None?)
  }

  /** No event so far was about an operation that is still to come. */
  ghost predicate Unborn(events: seq<Event>, id: nat) {
    && !Completes(events, id) && !Fails(events, id) && !Stops(events, id) && !FactoryStops(events, id)
    && !Began(events, id, true) && !Began(events, id, false)
  }

  lemma AllNext(events: seq<Event>, event: Event, id: nat)
    ensures Completes(events + [event], id) <==> Completes(events, id) || CompletesWith(events, event, id)
    ensures Fails(events + [event], id) <==> Fails(events, id) || FailsWith(events, event, id)
    ensures Stops(events + [event], id) <==> Stops(events, id) || StopsWith(events, event, id)
    ensures FactoryStops(events + [event], id) <==> FactoryStops(events, id) || FactoryStopsWith(events, event, id)
    ensures forall success :: Began(events + [event], id, success) <==>
              Began(events, id, success) || (event == BeginCommit(id, success) && RunningAfter(events, id))
  {
    CompletesNext(events, event, id);
    FailsNext(events, event, id);
    StopsNext(events, event, id);
    FactoryStopsNext(events, event, id);
    BeganNext(events, event, id, true);
    BeganNext(events, event, id, false);
  }

  lemma RecordedNext(events: seq<Event>, event: Event, id: nat)
    requires Happens(events) && Enabled(After(events), event) && Valid(After(events))
    requires id < |After(events).operations| && Recorded(events, id, After(events).operations[id])
    ensures id < |Step(After(events), event).operations|
    ensures Recorded(events + [event], id, Step(After(events), event).operations[id])
  {
    EventDecides(After(events), event, id);
    AllNext(events, event, id);
    RunningIsRunning(events, id);
    ValidIsSound(After(events), id);
    DecisionsAreRecorded(events, event, id, After(events), Step(After(events), event).operations[id]);
  }

  lemma RunningIsRunning(events: seq<Event>, id: nat)
    requires Happens(events)
    ensures RunningAfter(events, id) <==> IsRunning(After(events), id)
  {
  }

  lemma DecisionsAreRecorded(events: seq<Event>, event: Event, id: nat, session: Session, after: Operation)
    requires Enabled(session, event) && id < |session.operations| && Sound(session, id)
    requires Recorded(events, id, session.operations[id])
    requires Decides(session, event, id, session.operations[id], after)
    requires RunningAfter(events, id) <==> IsRunning(session, id)
    requires Completes(events + [event], id) <==> Completes(events, id) || CompletesWith(events, event, id)
    requires Fails(events + [event], id) <==> Fails(events, id) || FailsWith(events, event, id)
    requires Stops(events + [event], id) <==> Stops(events, id) || StopsWith(events, event, id)
    requires FactoryStops(events + [event], id) <==> FactoryStops(events, id) || FactoryStopsWith(events, event, id)
    requires forall success :: Began(events + [event], id, success) <==>
               Began(events, id, success) || (event == BeginCommit(id, success) && RunningAfter(events, id))
    ensures Recorded(events + [event], id, after)
  {
    hide Completes, Fails, Stops, FactoryStops, Began, RunningAfter;
    var before := session.operations[id];
    assert event.EndCommit? && event.id == id ==> before.committed.None?;
    CommittedIsKnown(before);
  }

  lemma CommittedIsKnown(operation: Operation)
    requires DecidedOnce(operation)
    ensures operation.committed == Some(Completed) || operation.committed == Some(Failed) || operation.committed.None?
  {
    match operation.committed {
      case None =>
      case Some(Completed) =>
      case Some(Failed) =>
      case Some(Cancelled) =>
    }
  }

  lemma UnbornNext(events: seq<Event>, event: Event, id: nat)
    requires Happens(events) && Enabled(After(events), event) && Valid(After(events))
    requires id >= |After(events).operations| && Unborn(events, id)
    ensures Unborn(events + [event], id)
    ensures id < |Step(After(events), event).operations| ==> Step(After(events), event).operations[id] == NEW_OPERATION
  {
    AllNext(events, event, id);
    StepLeads(After(events), event);
    OnlyReservingAdds(After(events), event);
    hide Completes, Fails, Stops, FactoryStops, Began, Step;
  }

  lemma OnlyReservingAdds(session: Session, event: Event)
    requires Valid(session) && Enabled(session, event)
    ensures if event.Reserve? then Step(session, event).operations == session.operations
                                   || Step(session, event).operations == session.operations + [NEW_OPERATION]
            else |Step(session, event).operations| == |session.operations|
  {
    if AboutTask(event) {
      TaskLeavesOthers(session, event);
      hide Step, Valid;
    } else if AboutStarter(event) {
      StarterLeavesOthers(session, event);
      hide Step, Valid;
    } else {
      hide Valid;
      ControlAddsNothing(session, event);
    }
  }

  lemma ControlAddsNothing(session: Session, event: Event)
    requires Enabled(session, event) && !AboutTask(event) && !AboutStarter(event)
    ensures if event.Reserve? then Step(session, event).operations == session.operations
                                   || Step(session, event).operations == session.operations + [NEW_OPERATION]
            else |Step(session, event).operations| == |session.operations|
  {
  }

  lemma {:induction false} RunIsRecorded(events: seq<Event>, id: nat)
    requires Happens(events)
    ensures if id < |After(events).operations| then Recorded(events, id, After(events).operations[id])
            else Unborn(events, id)
    decreases |events|
  {
    if events != [] {
      var earlier, last := events[..|events| - 1], events[|events| - 1];
      assert earlier + [last] == events;
      RunIsRecorded(earlier, id);
      RunKeepsValid(earlier);
      if id < |After(earlier).operations| {
        RecordedNext(earlier, last, id);
      } else {
        UnbornNext(earlier, last, id);
      }
    }
  }

  ghost predicate OutcomeIs(events: seq<Event>, id: nat, operation: Operation) {
    operation.entered && operation.attempts != [] ==>
      && (operation.attempts == [Completed] <==> Completes(events, id))
      && (operation.attempts == [Failed] <==> Fails(events, id))
      && (operation.attempts == [Cancelled] <==> Stops(events, id) || FactoryStops(events, id))
  }

  /**
   Which outcome is published, of the events alone. An operation that was entered and has
   published published COMPLETED exactly if its factory returned while it was RUNNING or
   the action of its begun completion returned; FAILED exactly if its factory raised while
   it was RUNNING or any other begun commit ended; and CANCELLED exactly if it was asked to
   stop while RUNNING, or its factory was cancelled with nothing committed.
   */
  lemma PublishedOutcome(events: seq<Event>, id: nat)
    requires Happens(events) && id < |After(events).operations|
    ensures OutcomeIs(events, id, After(events).operations[id])
  {
    RunKeepsValid(events);
    RunIsRecorded(events, id);
    EndedExactlyOnce(events, id);
    ValidIsSound(After(events), id);
    var operation := After(events).operations[id];
    CommittedIsKnown(operation);
    assert operation.entered && operation.attempts != [] ==> operation.attempts == [operation.attempts[0]];
    hide Completes, Fails, Stops, FactoryStops, Began;
  }

  /** From the beginning of a shutdown on, no operation is reserved any more. */
  lemma {:induction false} ShutdownReservesNothing(events: seq<Event>, n: nat)
    requires n < |events| && Happens(events) && Happens(events[..n]) && events[n] == BeginShutdown
    ensures After(events).closing && |After(events).operations| == |After(events[..n]).operations|
    ensures DoReserve(After(events), true) == After(events)
    decreases |events|
  {
    var earlier, last := events[..|events| - 1], events[|events| - 1];
    RunKeepsValid(earlier);
    if n == |events| - 1 {
      assert events[..n] == earlier;
    } else {
      assert earlier[..n] == events[..n];
      ShutdownReservesNothing(earlier, n);
      ClosingStays(After(earlier), last);
      OnlyReservingAdds(After(earlier), last);
    }
  }

  lemma ClosingStays(session: Session, event: Event)
    requires Enabled(session, event) && session.closing
    ensures Step(session, event).closing
  {
  }
}
