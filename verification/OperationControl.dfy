/**
 The controller and the arbiter as objects whose methods assign their fields. Each
 method is one atomic section and is proved to be the corresponding step of the
 session model, so everything proved of its runs holds of these objects.
 */
module OperationControl {
  import opened Outcomes
  import opened Operations

  class ForegroundArbiter {
    var lease: Option<Lease>
    var closing: bool

    constructor ()
      ensures lease.None? && !closing
    {
      lease, closing := None, false;
    }

    /** Grant a lease unless one is held or the session is closing. */
    method Acquire(wanted: Lease) returns (granted: bool)
      modifies this`lease
      ensures granted == (!closing && old(lease).None?)
      ensures lease == if granted then Some(wanted) else old(lease)
    {
      granted := !closing && lease.None?;
      if granted {
        lease := Some(wanted);
      }
    }

    /** Give back exactly the lease that is held; giving back another is an ownership error. */
    method Release(held: Lease) returns (lost: bool)
      modifies this`lease
      ensures lost == (old(lease) != Some(held))
      ensures lease == if lost then old(lease) else None
    {
      lost := lease != Some(held);
      if !lost {
        lease := None;
      }
    }

    method BeginClosing()
      modifies this`closing
      ensures closing
    {
      closing := true;
    }
  }

  class OperationController {
    const foreground: ForegroundArbiter
    var activeId: Option<nat>
    var activePhase: Option<Phase>
    var committedTerminal: Option<Terminal>
    var activeTask: Option<nat>
    var activeReservation: Option<nat>
    var starterTask: Option<nat>
    var operations: seq<Operation>
    var leaseLost: bool

    function Now(): Session
      reads this, foreground
    {
      Session(
        foreground.lease, foreground.closing, leaseLost, activeId, activePhase, committedTerminal,
        activeTask, activeReservation, starterTask, operations)
    }

    constructor ()
      ensures Now() == NEW_SESSION && fresh(foreground)
    {
      foreground := new ForegroundArbiter();
      activeId, activePhase, committedTerminal := None, None, None;
      activeTask, activeReservation, starterTask := None, None, None;
      operations, leaseLost := [], false;
    }

    /** Release an operation's lease unless it was released before. */
    method ReleaseLease(id: nat)
      requires id < |operations|
      modifies this`operations, this`leaseLost, foreground`lease
      ensures Now() == Release(old(Now()), id)
    {
      if operations[id].released > 0 {
        return;
      }
      operations := operations[id := operations[id].(released := 1)];
      var lost := foreground.Release(OperationLease(id));
      leaseLost := leaseLost || lost;
    }

    /** Take the lease, ask the admission gate, and only then become the active operation. */
    method Reserve(admitted: bool) returns (reserved: Option<nat>)
      modifies this, foreground`lease
      ensures Now() == Step(old(Now()), Event.Reserve(admitted))
      ensures reserved.Some? <==> old(activeId.None? && !foreground.closing && foreground.lease.None?) && admitted
      ensures reserved.Some? ==> activeId == reserved && reserved.value == |old(operations)|
    {
      if activeId.Some? {
        return None;
      }
      var id := |operations|;
      var granted := foreground.Acquire(OperationLease(id));
      if !granted {
        return None;
      }
      if !admitted {
        var lost := foreground.Release(OperationLease(id));
        return None;
      }
      activeId := Some(id);
      activePhase := Some(Reserved);
      activeReservation := Some(id);
      starterTask := Some(id);
      operations := operations + [NEW_OPERATION];
      return Some(id);
    }

    method Abort(id: nat)
      requires id < |operations|
      modifies this, foreground`lease
      ensures Now() == Step(old(Now()), Event.Abort(id))
    {
      if operations[id].consumed {
        return;
      }
      operations := operations[id := operations[id].(consumed := true)];
      if activeId == Some(id) {
        activeId, activePhase, committedTerminal := None, None, None;
        activeReservation, starterTask := None, None;
      }
      ReleaseLease(id);
    }

    /** start_reserved up to announcing the operation. */
    method StartReserved(id: nat) returns (started: bool)
      requires Enabled(Now(), Event.StartReserved(id))
      modifies this
      ensures Now() == Step(old(Now()), Event.StartReserved(id))
      ensures started == (!old(operations)[id].consumed && old(activeId) == Some(id))
    {
      started := !operations[id].consumed && activeId == Some(id);
      if !started {
        return;
      }
      operations := operations[id := operations[id].(consumed := true, starter := Emitting)];
      activePhase := Some(Starting);
    }

    /** The announcement failed or was cancelled. */
    method EmitRaises(id: nat)
      requires Enabled(Now(), Event.EmitRaises(id))
      modifies this, foreground`lease
      ensures Now() == Step(old(Now()), Event.EmitRaises(id))
    {
      operations := operations[id := operations[id].(starter := StarterDone)];
      activeId, activePhase, committedTerminal := None, None, None;
      activeReservation, starterTask := None, None;
      ReleaseLease(id);
    }

    /** The announcement was made: create the task and wait for it to be ready. */
    method EmitReturns(id: nat)
      requires Enabled(Now(), Event.EmitReturns(id))
      modifies this
      ensures Now() == Step(old(Now()), Event.EmitReturns(id))
    {
      if activePhase == Some(Starting) {
        activePhase := Some(Running);
      }
      operations := operations[id := operations[id].(starter := AwaitingReady, task := Created)];
      activeTask := Some(id);
      activeReservation := None;
    }

    /** The task's first step, up to its first await. */
    method TaskFirstStep(id: nat)
      requires Enabled(Now(), Event.TaskFirstStep(id))
      modifies this
      ensures Now() == Step(old(Now()), Event.TaskFirstStep(id))
    {
      var operation := operations[id];
      if operation.cancelRequested {
        operation := operation.(task := Ended);
      } else if activePhase == Some(Cancelling) {
        operation := operation.(
          ready := true, attempts := operation.attempts + [Cancelled], task := PublishingEarly);
      } else {
        operation := operation.(ready := true, entered := true, task := InFactory);
      }
      operations := operations[id := operation];
    }

    /** commit_completed and commit_failed, up to awaiting their action. */
    method BeginCommit(id: nat, success: bool) returns (began: bool)
      requires Enabled(Now(), Event.BeginCommit(id, success))
      modifies this
      ensures Now() == Step(old(Now()), Event.BeginCommit(id, success))
      ensures began == (old(activeId) == Some(id) && old(activePhase) == Some(Running))
    {
      began := activeId == Some(id) && activePhase == Some(Running);
      if !began {
        return;
      }
      activePhase := Some(Committing);
      operations := operations[id := operations[id].(task := InCommit(success), commitStarted := true)];
    }

    method CommitTerminal(id: nat, terminal: Terminal)
      requires id < |operations|
      modifies this
      ensures Now() == Operations.CommitTerminal(old(Now()), id, terminal)
    {
      activePhase := Some(Phase.Committed);
      committedTerminal := Some(terminal);
      operations := operations[id := operations[id].(committed := Some(terminal))];
    }

    method EndCommit(id: nat, returned: bool)
      requires Enabled(Now(), Event.EndCommit(id, returned))
      modifies this
      ensures Now() == Step(old(Now()), Event.EndCommit(id, returned))
    {
      var success := operations[id].task.success;
      operations := operations[id := operations[id].(task := InFactory)];
      CommitTerminal(id, if success && returned then Completed else Failed);
    }

    /** Start publishing the outcome; nothing is published when none is committed. */
    method PublishCommitted(id: nat)
      requires id < |operations|
      modifies this
      ensures Now() == Operations.PublishCommitted(old(Now()), id)
    {
      if committedTerminal.Some? {
        var operation := operations[id];
        operations := operations[id := operation.(
          attempts := operation.attempts + [committedTerminal.value], task := Publishing)];
      }
    }

    method PublishCancelled(id: nat)
      requires id < |operations|
      modifies this
      ensures Now() == Operations.PublishCancelled(old(Now()), id)
    {
      activePhase := Some(Cancelling);
      var operation := operations[id];
      operations := operations[id := operation.(attempts := operation.attempts + [Cancelled], task := Publishing)];
    }

    /** The factory returned or raised. */
    method FactoryEnds(id: nat, returned: bool)
      requires id < |operations| && operations[id].task.InFactory?
      modifies this
      ensures Now() == Step(old(Now()), if returned then FactoryReturns(id) else FactoryRaises(id))
    {
      if activePhase == Some(Cancelling) {
        PublishCancelled(id);
        return;
      }
      if activePhase == Some(Running) {
        CommitTerminal(id, if returned then Completed else Failed);
      }
      PublishCommitted(id);
    }

    method FactoryCancelled(id: nat)
      requires Enabled(Now(), Event.FactoryCancelled(id))
      modifies this
      ensures Now() == Step(old(Now()), Event.FactoryCancelled(id))
    {
      if activePhase == Some(Phase.Committed) {
        PublishCommitted(id);
      } else {
        PublishCancelled(id);
      }
    }

    /** The publication was delivered, failed or timed out; a task that entered its factory lets go. */
    method PublicationEnds(id: nat)
      requires Enabled(Now(), Event.PublicationEnds(id))
      modifies this, foreground`lease
      ensures Now() == Step(old(Now()), Event.PublicationEnds(id))
    {
      var early := operations[id].task.PublishingEarly?;
      operations := operations[id := operations[id].(task := Ended)];
      if early {
        return;
      }
      activeId, activePhase, committedTerminal, activeTask := None, None, None, None;
      ReleaseLease(id);
    }

    method RequestCancel(id: nat, byCaller: bool)
      requires id < |operations|
      modifies this
      ensures Now() == Operations.RequestCancel(old(Now()), id, byCaller)
    {
      var operation := operations[id];
      operations := operations[id := operation.(
        cancelAccepted := operation.cancelAccepted || byCaller,
        stoppedEarly := operation.stoppedEarly || !operation.entered,
        cancelRequested := operation.cancelRequested || activePhase == Some(Running))];
      activePhase := Some(Cancelling);
    }

    method Cancel(id: nat) returns (accepted: bool)
      requires id < |operations|
      modifies this
      ensures accepted == CancelReturnsTrue(old(Now()), id)
      ensures Now() == Step(old(Now()), Event.Cancel(id))
    {
      if activeId == Some(id) && activePhase == Some(Starting) {
        RequestCancel(id, true);
        return true;
      }
      if activeId != Some(id) || activeTask.None? || activePhase != Some(Running) {
        return false;
      }
      RequestCancel(id, true);
      return true;
    }

    /** The starter was cancelled while announcing, or while waiting for the task to be ready. */
    method StarterCancelled(id: nat)
      requires Enabled(Now(), Event.StarterCancelled(id))
      modifies this, foreground`lease
      ensures Now() == Step(old(Now()), Event.StarterCancelled(id))
    {
      operations := operations[id := operations[id].(starterCancelled := true)];
      if operations[id].starter.Emitting? {
        EmitRaises(id);
        return;
      }
      if activePhase == Some(Running) {
        RequestCancel(id, false);
      }
      operations := operations[id := operations[id].(starter := AwaitingTask)];
    }

    method StarterCleansUp(id: nat)
      requires id < |operations|
      modifies this, foreground`lease
      ensures Now() == Operations.StarterCleansUp(old(Now()), id)
    {
      operations := operations[id := operations[id].(starter := StarterDone)];
      activeId, activePhase, committedTerminal, activeTask := None, None, None, None;
      ReleaseLease(id);
      starterTask := None;
    }

    /** The cancelled starter sees its task end; it cleans up only what is still its own. */
    method StarterSeesTaskEnd(id: nat)
      requires Enabled(Now(), Event.StarterSeesTaskEnd(id))
      modifies this, foreground`lease
      ensures Now() == Step(old(Now()), Event.StarterSeesTaskEnd(id))
    {
      var operation := operations[id];
      if activeId != Some(id) {
        operations := operations[id := operation.(starter := StarterDone)];
        starterTask := None;
      } else if activePhase == Some(Cancelling) {
        operations := operations[id := operation.(
          starter := StarterPublishing, attempts := operation.attempts + [Cancelled])];
      } else {
        StarterCleansUp(id);
      }
    }

    /** shutdown refuses new leases, then stops a running task. */
    method BeginShutdown()
      modifies foreground`closing
      ensures Now() == Step(old(Now()), Event.BeginShutdown)
    {
      foreground.BeginClosing();
    }

    method ShutdownCancelsTask()
      requires foreground.closing
      requires activeTask.Some? ==> activeTask.value < |operations|
      modifies this
      ensures Now() == Step(old(Now()), Event.ShutdownCancelsTask)
    {
      if activeTask.Some? && activePhase == Some(Running) {
        RequestCancel(activeTask.value, false);
      }
    }

    /** The starter sees its task ready and returns its handle. */
    method StarterWakes(id: nat)
      requires Enabled(Now(), Event.StarterWakes(id))
      modifies this
      ensures Now() == Step(old(Now()), Event.StarterWakes(id))
    {
      operations := operations[id := operations[id].(starter := StarterDone)];
      starterTask := None;
    }

    /** One event, by the method that handles it. `took` tells whether a cancel or a commit was taken. */
    method HandleTask(event: Event) returns (took: bool)
      requires AboutTask(event) && Enabled(Now(), event)
      modifies this, foreground`lease
      ensures Now() == Step(old(Now()), event)
      ensures took <==> event.BeginCommit? && old(activeId) == Some(event.id) && old(activePhase) == Some(Running)
    {
      took := false;
      match event
      case TaskFirstStep(id) => TaskFirstStep(id);
      case BeginCommit(id, success) => took := BeginCommit(id, success);
      case EndCommit(id, returned) => EndCommit(id, returned);
      case FactoryReturns(id) => FactoryEnds(id, true);
      case FactoryRaises(id) => FactoryEnds(id, false);
      case FactoryCancelled(id) => FactoryCancelled(id);
      case PublicationEnds(id) => PublicationEnds(id);
    }

    method HandleStarter(event: Event)
      requires AboutStarter(event) && Enabled(Now(), event)
      modifies this, foreground`lease
      ensures Now() == Step(old(Now()), event)
    {
      match event
      case StartReserved(id) => var started := StartReserved(id);
      case EmitReturns(id) => EmitReturns(id);
      case EmitRaises(id) => EmitRaises(id);
      case StarterWakes(id) => StarterWakes(id);
      case StarterCancelled(id) => StarterCancelled(id);
      case StarterSeesTaskEnd(id) => StarterSeesTaskEnd(id);
      case StarterPublicationEnds(id) => StarterCleansUp(id);
    }

    method HandleControl(event: Event) returns (took: bool)
      requires !AboutTask(event) && !AboutStarter(event) && Enabled(Now(), event)
      requires activeTask.Some? ==> activeTask.value < |operations|
      modifies this, foreground
      ensures Now() == Step(old(Now()), event)
      ensures took <==> event.Cancel? && CancelReturnsTrue(old(Now()), event.id)
    {
      took := false;
      match event
      case Reserve(admitted) => var reserved := Reserve(admitted);
      case Abort(id) => Abort(id);
      case Cancel(id) => took := Cancel(id);
      case BeginShutdown => BeginShutdown();
      case ShutdownCancelsTask => ShutdownCancelsTask();
      case AcquireExclusive => var granted := foreground.Acquire(ExclusiveLease);
      case ReleaseExclusive => var lost := foreground.Release(ExclusiveLease);
    }

    method Handle(event: Event) returns (took: bool)
      requires Valid(Now()) && Enabled(Now(), event)
      modifies this, foreground
      ensures Now() == Step(old(Now()), event)
      ensures took <==>
                || (event.Cancel? && CancelReturnsTrue(old(Now()), event.id))
                || (event.BeginCommit? && old(activeId) == Some(event.id) && old(activePhase) == Some(Running))
    {
      if AboutTask(event) {
        took := HandleTask(event);
      } else if AboutStarter(event) {
        HandleStarter(event);
        took := false;
      } else {
        took := HandleControl(event);
      }
    }
  }

  /**
   The objects over any events. They go through the session model's states; every operation
   ends and lets go as the model says; and an operation whose `Cancel` returned True only
   ever published CANCELLED, while one whose commit began only ever published its outcome.
   What an operation published is the outcome that the events decide.
   */
  method RunController(events: seq<Event>)
    returns (session: Session, cancelled: set<nat>, committing: set<nat>)
    requires Happens(events)
    ensures session == After(events)
    ensures EndsOnce(session)
    ensures forall id | 0 <= id < |session.operations| :: OutcomeIs(events, id, session.operations[id])
    ensures forall id | id in cancelled :: id < |session.operations| && OnlyCancelled(session.operations[id])
    ensures forall id | id in committing ::
              && id < |session.operations| && !CancelReturnsTrue(session, id)
              && OnlyCommitted(session.operations[id])
  {
    var controller := new OperationController();
    cancelled, committing := {}, {};
    assert events[..0] == [] && Happens([]) && Noted(NEW_SESSION, {}, {});
    hide Noted, Valid, Step, Enabled, EndsOnce, OnlyCancelled, OnlyCommitted, CancelReturnsTrue, OutcomeIs;
    var i := 0;
    while i < |events|
      invariant i <= |events| && fresh(controller) && fresh(controller.foreground)
      invariant Happens(events[..i]) && controller.Now() == After(events[..i])
      invariant Noted(After(events[..i]), cancelled, committing)
    {
      NextHappens(events, i);
      var took := controller.Handle(events[i]);
      NotedOneMore(After(events[..i]), events[i], cancelled, committing, took);
      if took && events[i].Cancel? {
        cancelled := cancelled + {events[i].id};
      }
      if took && events[i].BeginCommit? {
        committing := committing + {events[i].id};
      }
      i := i + 1;
    }
    assert events[..i] == events;
    session := controller.Now();
    RunKeepsValid(events);
    NotedDecides(session, cancelled, committing);
    forall id | 0 <= id < |session.operations|
      ensures OutcomeIs(events, id, session.operations[id])
    {
      PublishedOutcome(events, id);
    }
  }

  /** One attempt and one release for what entered its factory, and one release at most for all. */
  predicate EndsOnce(session: Session) {
    forall id | 0 <= id < |session.operations| ::
      var operation := session.operations[id];
      && operation.released <= 1
      && (operation.released == 1 <==> session.activeId != Some(id))
      && (operation.task.Ended? && operation.entered ==> |operation.attempts| == 1 && operation.released == 1)
  }

  predicate OnlyCancelled(operation: Operation) {
    All(operation.attempts, Cancelled) && !operation.commitStarted && operation.committed.None?
  }

  predicate OnlyCommitted(operation: Operation) {
    operation.attempts != [] ==>
      && operation.committed.Some? && operation.committed != Some(Cancelled)
      && All(operation.attempts, operation.committed.value)
  }

  lemma NextHappens(events: seq<Event>, i: nat)
    requires i < |events| && Happens(events)
    ensures Happens(events[..i]) && Valid(After(events[..i])) && Enabled(After(events[..i]), events[i])
    ensures Happens(events[..i + 1]) && After(events[..i + 1]) == Step(After(events[..i]), events[i])
  {
    PrefixHappens(events, i + 1);
    PrefixHappens(events, i);
    assert events[..i + 1][..i] == events[..i];
    RunKeepsValid(events[..i]);
  }

  lemma NotedDecides(session: Session, cancelled: set<nat>, committing: set<nat>)
    requires Valid(session) && Noted(session, cancelled, committing)
    ensures EndsOnce(session)
    ensures forall id | id in cancelled :: id < |session.operations| && OnlyCancelled(session.operations[id])
    ensures forall id | id in committing ::
              && id < |session.operations| && !CancelReturnsTrue(session, id)
              && OnlyCommitted(session.operations[id])
  {
  }

  /** Every accepted cancel and every begun commit is on record. */
  ghost predicate Noted(session: Session, cancelled: set<nat>, committing: set<nat>) {
    && (forall id | id in cancelled :: id < |session.operations| && session.operations[id].cancelAccepted)
    && (forall id | id in committing :: id < |session.operations| && session.operations[id].commitStarted)
  }

  lemma NotedOneMore(session: Session, event: Event, cancelled: set<nat>, committing: set<nat>, took: bool)
    requires Valid(session) && Enabled(session, event) && Noted(session, cancelled, committing)
    requires took <==>
               || (event.Cancel? && CancelReturnsTrue(session, event.id))
               || (event.BeginCommit? && session.activeId == Some(event.id) && session.phase == Some(Running))
    ensures Noted(
      Step(session, event),
      if took && event.Cancel? then cancelled + {event.id} else cancelled,
      if took && event.BeginCommit? then committing + {event.id} else committing)
  {
    StepLeads(session, event);
  }
}
