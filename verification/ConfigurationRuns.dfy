/**
 Whole runs: a change that fails or dies anywhere, restarts that die anywhere in
 recovery, and a second process recovering between the sections of the first.
 */
module ConfigurationRuns {
  import opened Outcomes
  import opened UserState
  import opened ProviderConfiguration
  import Credential = CredentialTransaction
  import ModelTx = ModelTransaction

  /**
   A credential change under arbitrary failures, then any number of startup recoveries
   each failing or dying anywhere, then one recovery in which nothing fails. That last
   recovery succeeds and leaves exactly one endpoint with no journal and no backup: the
   target if and only if the COMMITTED record ever became durable.
   */
  method CredentialCrashAtomicity(
    secret: Option<Bytes>, config: Config, request: CredentialRequest, plan: Plan, restarts: nat)
    returns (report: Report, status: Status, finalSecret: Option<Bytes>, finalConfig: Config,
             journal: Option<CredentialRecord>, backup: Option<Bytes>, ghost committed: bool)
    requires |SnapshotOf(secret).content| <= MAX_SECRET_FILE_BYTES
    requires plan.PlanUnchanged? ==> request.action.Delete?
    ensures status.Ok? && journal.None? && backup.None?
    ensures committed ==>
              && plan.PlanContent? && finalSecret == Some(plan.content)
              && finalConfig == WithSource(
                config, request.service, TargetSource(request, config.credentials.Get(request.service)))
    ensures !committed ==> finalSecret == secret && finalConfig == config
    ensures report.Returned? ==> (committed <==> plan.PlanContent?)
    ensures report.RaisedOriginal? ==> !committed
  {
    var files := new UserFiles(secret, config);
    var threads := new ModelTx.ThreadStore(files, map[]);
    var service := new ProviderConfigurationService(files, threads);
    ghost var ends := CredentialEndpoints(files, request, plan);
    report := service.PersistCredentialTransaction(request, plan);
    committed := files.credentialCommitted;
    status := RecoverCredential(files, restarts, ends);
    finalSecret, finalConfig := files.secret, files.config;
    journal, backup := files.credentialJournal, files.credentialBackup;
  }

  /** Startup recoveries that fail or die anywhere, and a last one in which nothing fails. */
  method RecoverCredential(files: UserFiles, restarts: nat, ghost ends: Credential.Endpoints)
    returns (status: Status)
    requires Credential.Recoverable(files, ends)
    modifies files`secret, files`config, files`credentialJournal, files`credentialBackup, files`reliable
    ensures status.Ok? && Credential.Clean(files)
    ensures if files.credentialCommitted then Credential.AtTarget(files, ends) else Credential.AtPrevious(files, ends)
  {
    var journal := new Credential.ProviderCredentialTransactionJournal(files);
    var reconciled;
    var restart := 0;
    while restart < restarts
      invariant Credential.Recoverable(files, ends)
    {
      journal := new Credential.ProviderCredentialTransactionJournal(files);
      status, reconciled := Credential.ReconcileProviderCredentialTransaction(journal, ends);
      restart := restart + 1;
    }
    files.reliable := true;
    journal := new Credential.ProviderCredentialTransactionJournal(files);
    status, reconciled := Credential.ReconcileProviderCredentialTransaction(journal, ends);
  }

  /** The same for a model change across the configuration document and the thread table. */
  method ModelCrashAtomicity(
    config: Config, threadTable: ModelTx.Threads, threadId: string, model: Model, transactionId: string, restarts: nat)
    returns (report: Report, pending: Option<ModelRecord>, status: Status, finalConfig: Config,
             finalThreads: ModelTx.Threads, journal: Option<ModelRecord>, ghost committed: bool,
             ghost prepareDurable: bool, ghost rollbackRaised: bool)
    requires threadId in threadTable
    ensures status.Ok? && journal.None?
    ensures committed ==>
              && finalConfig == WithDefaultModel(config, Some(model))
              && finalThreads == threadTable[threadId := Some(model)]
    ensures !committed ==> finalConfig == config && finalThreads == threadTable
    ensures report.Returned? ==>
              && finalConfig == WithDefaultModel(config, Some(model))
              && finalThreads == threadTable[threadId := Some(model)]
    ensures report.RaisedOriginal? ==> !committed && finalConfig == config && finalThreads == threadTable
    // `pending` is the journal that the change itself left behind.
    ensures report.Returned? ==> pending.None?
    ensures (report.RaisedOriginal? && pending.Some?) <==> (prepareDurable && rollbackRaised)
  {
    var files := new UserFiles(None, config);
    var threads := new ModelTx.ThreadStore(files, threadTable);
    var service := new ProviderConfigurationService(files, threads);
    ghost var ends := ModelTx.ModelEndpoints(threadId, config, threadTable, model);
    report, prepareDurable, rollbackRaised :=
      service.PersistModelAndFinalize(threadId, model, transactionId, ends);
    pending, committed := files.modelJournal, files.modelCommitted;
    status := RecoverModel(files, threads, restarts, ends);
    finalConfig, finalThreads := files.config, threads.committed;
    journal := files.modelJournal;
  }

  method RecoverModel(files: UserFiles, threads: ModelTx.ThreadStore, restarts: nat, ghost ends: ModelTx.ModelEndpoints)
    returns (status: Status)
    requires threads.files == files && ModelTx.Recoverable(files, threads, ends)
    modifies files`config, files`modelJournal, files`reliable, threads
    ensures status.Ok? && files.modelJournal.None? && ModelTx.AtEndpoint(files, threads, ends)
    ensures old(ModelTx.AtTarget(files, threads, ends) && files.modelJournal.None?) ==>
              ModelTx.AtTarget(files, threads, ends)
  {
    var journal := new ModelTx.ProviderModelTransactionJournal(files);
    var changed;
    var restart := 0;
    while restart < restarts
      invariant ModelTx.Recoverable(files, threads, ends)
      invariant old(ModelTx.AtTarget(files, threads, ends) && files.modelJournal.None?) ==>
                  ModelTx.AtTarget(files, threads, ends) && files.modelJournal.None?
    {
      journal := new ModelTx.ProviderModelTransactionJournal(files);
      status, changed := ModelTx.ReconcileProviderModelTransaction(journal, threads, ends);
      restart := restart + 1;
    }
    files.reliable := true;
    journal := new ModelTx.ProviderModelTransactionJournal(files);
    status, changed := ModelTx.ReconcileProviderModelTransaction(journal, threads, ends);
  }

  /** One run that re-raises and leaves a journal: every step works but those two. */
  method ReraiseWithPendingJournal(
    config: Config, threadTable: ModelTx.Threads, threadId: string, model: Model, transactionId: string)
    returns (report: Report, pending: Option<ModelRecord>, fenced: bool)
    requires threadId in threadTable
    ensures report.RaisedOriginal? && pending.Some? && fenced
  {
    var files := new UserFiles(None, config);
    files.reliable, files.failing := true, {ModelJournalWrite, DatabaseRollback};
    var threads := new ModelTx.ThreadStore(files, threadTable);
    var service := new ProviderConfigurationService(files, threads);
    ghost var ends := ModelTx.ModelEndpoints(threadId, config, threadTable, model);
    ghost var prepareDurable, rollbackRaised;
    report, prepareDurable, rollbackRaised :=
      service.PersistModelAndFinalize(threadId, model, transactionId, ends);
    pending, fenced := files.modelJournal, service.recoveryRequired;
  }

  /**
   A credential change in which exactly the named steps fail and every other works, also
   those of its recovery: it is undone when a step before COMMITTED fails or the new file is
   too large, and done otherwise. Either way nothing is left behind and nothing is fenced.
   */
  method CredentialFailureIsHandled(
    secret: Option<Bytes>, config: Config, request: CredentialRequest, content: Bytes, failing: set<Failure>)
    returns (report: Report, finalSecret: Option<Bytes>, finalConfig: Config, clean: bool, fenced: bool)
    requires |SnapshotOf(secret).content| <= MAX_SECRET_FILE_BYTES
    ensures clean && !fenced
    ensures var undone :=
              || |content| > MAX_SECRET_FILE_BYTES || SourceWrite in failing
              || CredentialJournalWrite(Prepared) in failing || CredentialJournalWrite(SecretCommitted) in failing;
            if undone then report.RaisedOriginal? && finalSecret == secret && finalConfig == config
            else
              && report.Returned? && finalSecret == Some(content)
              && finalConfig == WithSource(
                config, request.service, TargetSource(request, config.credentials.Get(request.service)))
  {
    var files := new UserFiles(secret, config);
    files.reliable, files.failing := true, failing;
    var threads := new ModelTx.ThreadStore(files, map[]);
    var service := new ProviderConfigurationService(files, threads);
    report := service.PersistCredentialTransaction(request, PlanContent(content));
    finalSecret, finalConfig, fenced := files.secret, files.config, service.recoveryRequired;
    clean := files.credentialJournal.None? && files.credentialBackup.None?;
  }

  /**
   The same for a model change. A failing write of either store undoes both. It is fenced
   when its record was written by a step that raised, or when the rollback itself raises.
   */
  method ModelFailureIsHandled(
    config: Config, threadTable: ModelTx.Threads, threadId: string, model: Model, transactionId: string,
    failing: set<Failure>)
    returns (report: Report, finalConfig: Config, finalThreads: ModelTx.Threads, pending: bool, fenced: bool)
    requires threadId in threadTable
    ensures var refused := DefaultModelWrite in failing || ThreadModelWrite in failing;
            if ModelJournalWrite in failing then
              fenced && (if DatabaseRollback in failing then report.RaisedOriginal? else report.RecoveryRequired?)
            else if refused && DatabaseRollback in failing then fenced && report.RecoveryRequired?
            else
              && !pending && !fenced
              && (if refused then report.RaisedOriginal? && finalConfig == config && finalThreads == threadTable
                  else
                    && report.Returned? && finalConfig == WithDefaultModel(config, Some(model))
                    && finalThreads == threadTable[threadId := Some(model)])
  {
    var files := new UserFiles(None, config);
    files.reliable, files.failing := true, failing;
    var threads := new ModelTx.ThreadStore(files, threadTable);
    var service := new ProviderConfigurationService(files, threads);
    ghost var ends := ModelTx.ModelEndpoints(threadId, config, threadTable, model);
    ghost var prepareDurable, rollbackRaised;
    report, prepareDurable, rollbackRaised :=
      service.PersistModelAndFinalize(threadId, model, transactionId, ends);
    finalConfig, finalThreads := files.config, threads.committed;
    pending, fenced := files.modelJournal.Some?, service.recoveryRequired;
  }

  /** What one turn of the scheduler runs. */
  datatype Turn =
    | PeerReconciles(reliable: bool)
    | PeerFinalizes(reliable: bool)
    | PeerRestarts
    | FirstContinues

  /**
   Two processes over the same files. The locks (SQLite outer, configuration inner) make
   each section atomic, so a turn runs one whole section of one process. The first
   process has run the first transaction of its model change; the second recovers.
   */
  class TwoProcesses {
    const files: UserFiles
    const threads: ModelTx.ThreadStore
    const service: ProviderConfigurationService
    const peerJournal: ModelTx.ProviderModelTransactionJournal
    ghost const ends: ModelTx.ModelEndpoints
    const first: ModelAttempt
    ghost const record: Option<ModelRecord>
    var attempt: ModelAttempt
    var finished: Option<Report>
    var peerRecord: Option<ModelRecord>

    /** Nothing moves the stores once they reach the endpoint the journal selected. */
    ghost predicate Valid()
      reads this, files, threads
    {
      && service.Valid() && service.files == files && service.threads == threads
      && threads.files == files && peerJournal.files == files
      && ModelTx.Recoverable(files, threads, ends)
      && (files.modelJournal.None? || files.modelJournal == record)
      && (peerRecord.Some? ==>
            && peerRecord == record && ends.DescribedBy(peerRecord.value)
            && peerRecord.value.phase.ModelCommitted? == files.modelCommitted
            && ModelTx.AtEndpoint(files, threads, ends))
      && (!attempt.Ended? ==>
            && record == Some(attempt.record) && ends.DescribedBy(attempt.record)
            && attempt.record.phase.ModelCommitted? == files.modelCommitted)
      && (attempt.Persisted? ==> files.modelCommitted && ModelTx.AtTarget(files, threads, ends))
      && (attempt.CommitUnknown? ==> files.modelCommitted)
      && (attempt.RolledBack? ==> !files.modelCommitted && ModelTx.AtPrevious(files, threads, ends))
      && (first.Persisted? || first.RolledBack? ==> attempt == first)
      && (first.Persisted? && finished.Some? ==> finished.value.Returned?)
      && (first.RolledBack? && finished.Some? ==> finished.value.RaisedOriginal?)
      && (finished.Some? && finished.value.Returned? ==> attempt.Persisted?)
    }

    /** The first transaction of the first process, under arbitrary failures. */
    constructor (
      files: UserFiles, threads: ModelTx.ThreadStore, threadId: string, model: Model, transactionId: string)
      requires threads.files == files && threadId in threads.committed
      requires files.modelJournal.None? && !files.modelCommitted
      modifies files, threads
      ensures Valid() && this.files == files && this.threads == threads
      ensures ends == ModelTx.ModelEndpoints(threadId, old(files.config), old(threads.committed), model)
      ensures finished.None?
    {
      var process := new ProviderConfigurationService(files, threads);
      ghost var change := ModelTx.ModelEndpoints(threadId, files.config, threads.committed, model);
      var outcome;
      ghost var prepareDurable, rollbackRaised;
      outcome, prepareDurable, rollbackRaised :=
        process.PersistModelTransaction(threadId, model, transactionId, change);
      this.files := files;
      this.threads := threads;
      service := process;
      peerJournal := new ModelTx.ProviderModelTransactionJournal(files);
      ends := change;
      first := outcome;
      attempt := outcome;
      record := if outcome.Ended? then files.modelJournal else Some(outcome.record);
      finished := None;
      peerRecord := None;
    }

    method PeerReconciles(reliable: bool) returns (status: Status)
      requires Valid()
      modifies this`peerRecord, files`reliable, files`config, threads
      ensures Valid()
      ensures reliable ==> status.Ok?
      ensures status.Ok? ==> ModelTx.AtEndpoint(files, threads, ends)
    {
      files.reliable := reliable;
      var seen;
      status, seen := ModelTx.ReconcileTransaction(peerJournal, threads, ends);
      peerRecord := if status.Ok? then seen else None;
    }

    method PeerFinalizes(reliable: bool) returns (status: Status)
      requires Valid()
      modifies this`peerRecord, files`reliable, files`modelJournal, threads
      ensures Valid()
      ensures reliable ==> status.Ok?
    {
      status := Ok;
      if peerRecord.Some? {
        files.reliable := reliable;
        status := ModelTx.FinalizeTransaction(peerJournal, threads, peerRecord.value, ends);
        peerRecord := None;
      }
    }

    method FirstContinues()
      requires Valid()
      modifies this`attempt, this`finished, service`recoveryRequired, files`reliable, files`modelJournal, threads
      ensures Valid()
      ensures old(finished.Some?) ==> finished == old(finished)
      ensures old(attempt.Persisted? && finished.None?) ==> finished == Some(Returned)
      ensures old(attempt.RolledBack? && finished.None?) ==> finished == Some(RaisedOriginal)
      ensures old(attempt.CommitUnknown? && ModelTx.AtEndpoint(files, threads, ends)) ==> attempt.Persisted?
    {
      files.reliable := true;
      if attempt.CommitUnknown? {
        attempt := service.ResolveModelTransactionBoundary(attempt.record, ends);
      } else if !attempt.Ended? && finished.None? {
        var report := service.FinalizeModelTransaction(attempt, ends);
        finished := Some(report);
      }
    }

    /** What the invariant says of the outcome. */
    lemma Concludes()
      requires Valid()
      ensures first.Persisted? && finished.Some? ==> finished.value.Returned?
      ensures first.RolledBack? && finished.Some? ==> finished.value.RaisedOriginal?
      ensures first.Persisted? || (finished.Some? && finished.value.Returned?) ==>
                files.modelCommitted && ModelTx.AtTarget(files, threads, ends)
      ensures first.RolledBack? ==> !files.modelCommitted && ModelTx.AtPrevious(files, threads, ends)
    {
    }

    /** One turn; a peer's section fails only when one of its steps may. */
    method TakeTurn(turn: Turn) returns (failed: bool)
      requires Valid()
      modifies this, service`recoveryRequired, files`reliable, files`config, files`modelJournal, threads
      ensures Valid() && !failed
      ensures old(finished.Some?) ==> finished.Some?
      ensures (first.Persisted? || first.RolledBack?) && turn.FirstContinues? ==> finished.Some?
    {
      failed := false;
      match turn {
        case PeerReconciles(reliable) =>
          var status := PeerReconciles(reliable);
          failed := reliable && !status.Ok?;
        case PeerFinalizes(reliable) =>
          var status := PeerFinalizes(reliable);
          failed := reliable && !status.Ok?;
        case PeerRestarts =>
          peerRecord := None;
        case FirstContinues =>
          FirstContinues();
      }
    }
  }

  /**
   Any schedule: once the first process has persisted or rolled back, its finalization
   succeeds whatever the second one did before, and the second never fails a section in
   which no step fails. Neither moves the stores off the selected endpoint.
   */
  method RunTwoProcesses(
    config: Config, threadTable: ModelTx.Threads, threadId: string, model: Model, transactionId: string,
    turns: seq<Turn>)
    returns (first: ModelAttempt, peerFailed: bool, finished: Option<Report>,
             finalConfig: Config, finalThreads: ModelTx.Threads, ghost committed: bool)
    requires threadId in threadTable
    ensures first.Persisted? && finished.Some? ==> finished.value.Returned?
    ensures first.RolledBack? && finished.Some? ==> finished.value.RaisedOriginal?
    ensures (first.Persisted? || first.RolledBack?) && FirstContinues in turns ==> finished.Some?
    ensures first.Persisted? || (finished.Some? && finished.value.Returned?) ==>
              && committed && finalConfig == WithDefaultModel(config, Some(model))
              && finalThreads == threadTable[threadId := Some(model)]
    ensures first.RolledBack? ==> !committed && finalConfig == config && finalThreads == threadTable
    ensures !peerFailed
  {
    var files := new UserFiles(None, config);
    var threads := new ModelTx.ThreadStore(files, threadTable);
    var both := new TwoProcesses(files, threads, threadId, model, transactionId);
    peerFailed := false;
    hide TwoProcesses.Valid;
    var turn := 0;
    while turn < |turns|
      invariant 0 <= turn <= |turns|
      invariant both.Valid() && !peerFailed
      invariant both.first.Persisted? || both.first.RolledBack? ==>
                  (FirstContinues in turns[..turn] ==> both.finished.Some?)
    {
      peerFailed := both.TakeTurn(turns[turn]);
      assert turns[..turn + 1] == turns[..turn] + [turns[turn]];
      turn := turn + 1;
    }
    assert turns[..turn] == turns;
    both.Concludes();
    first, finished := both.first, both.finished;
    finalConfig, finalThreads := files.config, threads.committed;
    committed := files.modelCommitted;
  }
}
