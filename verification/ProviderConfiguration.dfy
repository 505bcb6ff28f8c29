/**
 The service that changes credentials and models, and what survives a crash inside
 it. A report that the change succeeded, was undone, or needs recovery is checked
 here against the durable state it leaves.
 */
module ProviderConfiguration {
  import opened Outcomes
  import opened UserState
  import Credential = CredentialTransaction
  import ModelTx = ModelTransaction

  /** What planning the new secret file yields: an error, no change to make, or its new bytes. */
  datatype Plan = PlanFails | PlanUnchanged | PlanContent(content: Bytes)

  datatype CredentialRequest = CredentialRequest(service: Service, action: CredentialAction)

  function TargetSource(request: CredentialRequest, previous: Option<Source>): Option<Source> {
    if request.action.Delete? then previous else Some(Awesome)
  }

  /** The change a request plans from the current files. */
  function CredentialEndpoints(files: UserFiles, request: CredentialRequest, plan: Plan): Credential.Endpoints
    reads files
  {
    Credential.Endpoints(
      request.service, files.secret,
      if plan.PlanContent? then Some(plan.content) else files.secret,
      files.config, TargetSource(request, files.config.credentials.Get(request.service)))
  }

  /** How one section of a model change ends, before its finalizing transaction. */
  datatype ModelAttempt =
    | Persisted(record: ModelRecord)
    | CommitUnknown(record: ModelRecord)
    | RolledBack(record: ModelRecord)
    | Ended(report: Report)

  class ProviderConfigurationService {
    const files: UserFiles
    const threads: ModelTx.ThreadStore
    const credentialJournal: Credential.ProviderCredentialTransactionJournal
    const modelJournal: ModelTx.ProviderModelTransactionJournal
    var recoveryRequired: bool

    predicate Valid() {
      threads.files == files && credentialJournal.files == files && modelJournal.files == files
    }

    constructor (files: UserFiles, threads: ModelTx.ThreadStore)
      requires threads.files == files
      ensures Valid() && this.files == files && this.threads == threads && !recoveryRequired
    {
      this.files := files;
      this.threads := threads;
      credentialJournal := new Credential.ProviderCredentialTransactionJournal(files);
      modelJournal := new ModelTx.ProviderModelTransactionJournal(files);
      recoveryRequired := false;
    }

    /** No change of either kind may start while one is pending or the service is fenced. */
    method RequireConsistent() returns (status: Status)
      requires Valid()
      modifies this`recoveryRequired
      ensures status.Ok? ==> !recoveryRequired && Credential.Clean(files) && files.modelJournal.None?
      ensures status.Raised? ==> recoveryRequired
      ensures old(recoveryRequired) ==> status.Raised?
      ensures status.Crashed? ==> recoveryRequired == old(recoveryRequired)
      ensures (files.reliable && !old(recoveryRequired) && Credential.Clean(files) && files.modelJournal.None?)
              ==> status.Ok?
    {
      if recoveryRequired {
        return Raised;
      }
      var pending;
      status, pending := modelJournal.Read();
      if status.Ok? {
        status := credentialJournal.RequireClean();
      }
      if status.Ok? && pending.Some? {
        status := Raised;
      }
      if status.Raised? {
        recoveryRequired := true;
      }
    }

    /** Reload the configuration; it can only raise or return. */
    method LoadConfiguration() returns (status: Status)
      requires Valid()
      ensures files.reliable ==> status.Ok?
    {
      status := files.Touch();
    }

    /** Of the steps up to SECRET_COMMITTED none is made to fail, and the new file is not too large. */
    predicate MayCommitSecret(target: Snapshot)
      reads files
    {
      && |target.content| <= MAX_SECRET_FILE_BYTES
      && CredentialJournalWrite(Prepared) !in files.failing && CredentialJournalWrite(SecretCommitted) !in files.failing
    }

    /** From a clean state to a durable SECRET_COMMITTED record over the target secret file. */
    method CommitSecretFile(
      previous: Snapshot, target: Snapshot, prepared: CredentialRecord, ghost ends: Credential.Endpoints)
      returns (status: Status, secretCommitted: CredentialRecord)
      requires Valid()
      requires Credential.Recoverable(files, ends) && Credential.Clean(files) && !files.credentialCommitted
      requires ends.DescribedBy(prepared) && prepared.phase.Prepared?
      requires previous == SnapshotOf(ends.previousSecret) && target == SnapshotOf(ends.targetSecret)
      modifies files`secret, files`credentialJournal, files`credentialBackup, files`credentialCommitted
      ensures Credential.Recoverable(files, ends) && !files.credentialCommitted
      ensures status.Ok? ==>
                && secretCommitted == prepared.(phase := SecretCommitted)
                && files.credentialJournal == Some(secretCommitted)
                && files.secret == ends.targetSecret
      ensures files.reliable ==> status == if MayCommitSecret(target) then Ok else Raised
    {
      secretCommitted := prepared;
      :- credentialJournal.StageBackup(previous);
      assert SnapshotOf(files.credentialBackup) == previous;
      :- credentialJournal.Prepare(prepared);
      :- files.RestoreSecret(target);
      var written :- files.ReadSecret();
      if written != target {
        return Raised, secretCommitted;
      }
      Credential.RecordIdentifiesFiles(prepared, ends, files.secret);
      status, secretCommitted := credentialJournal.Advance(prepared, SecretCommitted);
    }

    /** The steps of a credential change from staging the backup to clearing the journal. */
    method AdvanceCredentialChange(
      previous: Snapshot, target: Snapshot, prepared: CredentialRecord, ghost ends: Credential.Endpoints)
      returns (status: Status, reachedCommit: bool)
      requires Valid()
      requires Credential.Recoverable(files, ends) && Credential.Clean(files) && !files.credentialCommitted
      requires ends.DescribedBy(prepared) && prepared.phase.Prepared?
      requires previous == SnapshotOf(ends.previousSecret) && target == SnapshotOf(ends.targetSecret)
      modifies files`secret, files`config, files`credentialJournal, files`credentialBackup, files`credentialCommitted
      ensures Credential.Recoverable(files, ends)
      ensures reachedCommit ==> files.credentialCommitted
      ensures files.credentialCommitted && !reachedCommit ==> files.credentialJournal.Some?
      ensures status.Ok? ==> files.credentialCommitted && Credential.Clean(files)
      // When nothing but a named step fails, COMMITTED becomes durable unless the failure comes before it.
      ensures files.reliable ==>
                && !status.Crashed?
                && (files.credentialCommitted <==> MayCommitSecret(target) && SourceWrite !in files.failing)
                && (status.Ok? <==>
                      && files.credentialCommitted && CredentialJournalWrite(Committed) !in files.failing
                      && CredentialJournalClear !in files.failing)
    {
      reachedCommit := false;
      var secretCommitted :- CommitSecretFile(previous, target, prepared, ends);
      Credential.SourceRoundTrip(ends.previousConfig, ends.service, ends.targetSource);
      :- files.UpdateSource(prepared.service, prepared.targetSource);
      if files.reliable && SourceWrite in files.failing {
        return Raised, false;
      }
      :- LoadConfiguration();
      Credential.RecordIdentifiesFiles(secretCommitted, ends, files.secret);
      :- Credential.VerifyCredentialTransactionState(files, secretCommitted, true);
      var committed :- credentialJournal.Advance(secretCommitted, Committed);
      reachedCommit := true;
      status := credentialJournal.Clear(committed);
      if files.reliable && CredentialJournalClear in files.failing {
        status := Raised;
      }
    }

    /**
     After a step raised: reconcile in process, and report success only when the commit
     was durable and its state verifies. Any further failure fences the service.
     */
    method RecoverCredentialChange(prepared: CredentialRecord, reachedCommit: bool, ghost ends: Credential.Endpoints)
      returns (report: Report)
      requires Valid() && !recoveryRequired
      requires Credential.Recoverable(files, ends) && ends.DescribedBy(prepared)
      requires reachedCommit ==> files.credentialCommitted
      requires files.credentialCommitted && !reachedCommit ==> files.credentialJournal.Some?
      modifies this`recoveryRequired,
               files`secret, files`config, files`credentialJournal, files`credentialBackup
      ensures Credential.Recoverable(files, ends)
      ensures report.Returned? ==> files.credentialCommitted && Credential.Clean(files)
      ensures report.RaisedOriginal? ==> !files.credentialCommitted && Credential.Clean(files)
      ensures report.RecoveryRequired? <==> recoveryRequired
      // When no step of the recovery fails it recovers, whatever failed before it.
      ensures files.reliable ==> report == if old(files.credentialCommitted) then Returned else RaisedOriginal
    {
      var status, current := credentialJournal.Read();
      var durableCommit := reachedCommit || (current.Some? && current.value.phase.Committed?);
      if status.Ok? {
        var reconciled;
        label beforeReconcile:
        status, reconciled := Credential.ReconcileProviderCredentialTransaction(credentialJournal, ends);
        if status.Ok? && durableCommit {
          Credential.RecordIdentifiesFiles(prepared, ends, files.secret);
          status := Credential.VerifyCredentialTransactionState(files, prepared, true);
          if status.Ok? {
            status := LoadConfiguration();
          }
        }
      }
      match status {
        case Ok =>
          report := if durableCommit then Returned else RaisedOriginal;
        case Raised =>
          recoveryRequired := true;
          report := RecoveryRequired;
        case Crashed =>
          report := Died;
      }
    }

    /** There is nothing to change, or no step before COMMITTED is made to fail. */
    predicate CredentialSucceeds(plan: Plan)
      reads files
    {
      match plan
      case PlanFails => false
      case PlanUnchanged => true
      case PlanContent(content) => MayCommitSecret(Snapshot(true, content)) && SourceWrite !in files.failing
    }

    /**
     Change one credential. Returning normally means the target pair is durable (or a
     deletion had nothing to delete); re-raising means the previous pair is; anything
     else fences the service. In every case the state is one that recovery can finish.
     */
    method PersistCredentialTransaction(request: CredentialRequest, plan: Plan) returns (report: Report)
      requires Valid()
      requires plan.PlanUnchanged? ==> request.action.Delete?
      modifies this`recoveryRequired, files
      ensures files.reliable == old(files.reliable) && files.failing == old(files.failing)
      ensures files.modelJournal == old(files.modelJournal) && files.modelCommitted == old(files.modelCommitted)
      ensures var ends := old(CredentialEndpoints(files, request, plan));
              old(Credential.Clean(files) && |SnapshotOf(files.secret).content| <= MAX_SECRET_FILE_BYTES) ==>
                && Credential.Recoverable(files, ends)
                && (report.Returned? ==>
                      && Credential.Clean(files)
                      && (files.credentialCommitted <==> plan.PlanContent?))
                && (files.credentialCommitted ==> plan.PlanContent?)
                && (report.RaisedOriginal? ==> Credential.Clean(files) && !files.credentialCommitted)
      ensures report.RecoveryRequired? ==> recoveryRequired
      // A pending change of either kind, or a fence, refuses this one.
      ensures old(recoveryRequired) ==> recoveryRequired
      ensures old(recoveryRequired || !Credential.Clean(files) || files.modelJournal.Some?) ==>
                (report.RecoveryRequired? || report.Died?)
                && files.secret == old(files.secret) && files.config == old(files.config)
                && files.credentialJournal == old(files.credentialJournal)
                && files.credentialBackup == old(files.credentialBackup)
                && files.credentialCommitted == old(files.credentialCommitted && !Credential.Clean(files))
      // When nothing but a named step fails, the outcome is certain and nothing is left behind.
      ensures old(&& files.reliable && !recoveryRequired && Credential.Clean(files) && files.modelJournal.None?
                  && |SnapshotOf(files.secret).content| <= MAX_SECRET_FILE_BYTES) ==>
                && report == (if CredentialSucceeds(plan) then Returned else RaisedOriginal)
                && Credential.Clean(files) && !recoveryRequired
    {
      ghost var ends := CredentialEndpoints(files, request, plan);
      if Credential.Clean(files) {
        files.credentialCommitted := false; // a new change starts a new history
      }
      var status := RequireConsistent();
      if !status.Ok? {
        return if status.Raised? then RecoveryRequired else Died;
      }
      var previousDocument;
      status, previousDocument := files.ReadConfig();
      if !status.Ok? {
        return if status.Raised? then RaisedOriginal else Died;
      }
      var previousSource := previousDocument.credentials.Get(request.service);
      var previousEnv;
      status, previousEnv := files.ReadSecret();
      if !status.Ok? {
        return if status.Raised? then RaisedOriginal else Died;
      }
      if plan.PlanFails? {
        return RaisedOriginal;
      }
      if plan.PlanUnchanged? {
        status := LoadConfiguration();
        return if status.Ok? then Returned else if status.Raised? then RaisedOriginal else Died;
      }
      var targetEnv := Snapshot(true, plan.content);
      var prepared := CredentialRecord(
        Prepared, request.service, ProviderEnvironmentVariable(request.service), request.action,
        previousSource, TargetSource(request, previousSource),
        previousEnv.existed, Sha256(previousEnv.content), targetEnv.existed, Sha256(targetEnv.content));
      var reachedCommit;
      status, reachedCommit := AdvanceCredentialChange(previousEnv, targetEnv, prepared, ends);
      if status.Ok? {
        return Returned;
      }
      if status.Crashed? {
        return Died;
      }
      report := RecoverCredentialChange(prepared, reachedCommit, ends);
    }

    /** Undo both stores inside the open SQLite transaction; every failure is collected. */
    method RestoreModelChange(record: ModelRecord, previousDocument: Config) returns (status: Status)
      requires Valid()
      modifies files`config, threads`buffer
      ensures files.config == old(files.config) || files.config == previousDocument
      ensures status.Ok? ==>
                && files.config == previousDocument
                && record.threadId in threads.buffer
                && threads.buffer[record.threadId] == record.previousThreadModel
      ensures (&& files.reliable && record.threadId in old(threads.buffer)
               && previousDocument.defaultModel == record.previousDefaultModel)
              ==> status.Ok?
    {
      var failed := false;
      status := files.WriteConfig(previousDocument);
      if status.Crashed? {
        return;
      }
      failed := failed || status.Raised?;
      var currentModel;
      status, currentModel := threads.ReadThread(record.threadId);
      if status.Ok? && currentModel != record.previousThreadModel {
        status := threads.SetModel(record.threadId, record.previousThreadModel);
      }
      if status.Crashed? {
        return;
      }
      failed := failed || status.Raised?;
      var document;
      status, document := files.ReadConfig();
      if status.Crashed? {
        return;
      }
      failed := failed || status.Raised? || document != previousDocument;
      status := ModelTx.VerifyModelTransactionState(
        files, threads, record.threadId, record.previousDefaultModel, record.previousThreadModel);
      if status.Crashed? {
        return;
      }
      failed := failed || status.Raised?;
      return if failed then Raised else Ok;
    }

    /** Neither of the two stores' writes is made to fail. */
    predicate MayApplyModel()
      reads files
    {
      DefaultModelWrite !in files.failing && ThreadModelWrite !in files.failing
    }

    /** Set both stores to the target model and check them. */
    method ApplyModelChange(prepared: ModelRecord) returns (status: Status)
      requires Valid()
      modifies files`config, threads`buffer
      ensures files.config == old(files.config)
           || files.config == WithDefaultModel(old(files.config), Some(prepared.targetDefaultModel))
      ensures threads.buffer == old(threads.buffer)
           || (prepared.threadId in old(threads.buffer)
               && threads.buffer == old(threads.buffer)[prepared.threadId := Some(prepared.targetThreadModel)])
      ensures status.Ok? ==>
                && files.config == WithDefaultModel(old(files.config), Some(prepared.targetDefaultModel))
                && prepared.threadId in old(threads.buffer)
                && threads.buffer == old(threads.buffer)[prepared.threadId := Some(prepared.targetThreadModel)]
      ensures files.reliable && prepared.threadId in old(threads.buffer) ==>
                status == if MayApplyModel() then Ok else Raised
    {
      status := files.UpdateDefaultModel(Some(prepared.targetDefaultModel));
      if files.reliable && DefaultModelWrite in files.failing {
        status := Raised;
      }
      if !status.Ok? {
        return;
      }
      :- LoadConfiguration();
      :- threads.SetModel(prepared.threadId, Some(prepared.targetThreadModel));
      if files.reliable && ThreadModelWrite in files.failing {
        return Raised;
      }
      status := ModelTx.VerifyModelTransactionState(
        files, threads, prepared.threadId,
        Some(prepared.targetDefaultModel), Some(prepared.targetThreadModel));
    }

    /** From a durable PREPARED record: apply the change and commit the record, or undo it. */
    method PersistPrepared(prepared: ModelRecord, previousDocument: Config, ghost ends: ModelTx.ModelEndpoints)
      returns (attempt: ModelAttempt)
      requires Valid()
      requires ModelTx.Recoverable(files, threads, ends) && !files.modelCommitted
      requires ModelTx.AtPrevious(files, threads, ends) && threads.buffer == threads.committed
      requires files.modelJournal == Some(prepared) && prepared.phase.ModelPrepared? && prepared.Valid()
      requires previousDocument == ends.previousConfig
      modifies this`recoveryRequired, files`config, files`modelJournal, files`modelCommitted, threads`buffer
      ensures ModelTx.Recoverable(files, threads, ends)
      ensures !attempt.CommitUnknown? && attempt != Ended(RaisedOriginal)
      ensures attempt.Persisted? ==>
                && files.modelCommitted && ends.DescribedBy(attempt.record) && attempt.record.phase.ModelCommitted?
                && files.modelJournal == Some(attempt.record)
                && files.config == ends.TargetConfig() && threads.buffer == ends.TargetThreads()
      ensures attempt.RolledBack? ==>
                && !files.modelCommitted && ends.DescribedBy(attempt.record) && attempt.record.phase.ModelPrepared?
                && files.modelJournal == Some(attempt.record)
                && files.config == ends.previousConfig
      ensures attempt == Ended(RecoveryRequired) ==> recoveryRequired
      ensures attempt.Ended? ==> !attempt.report.Returned?
      // When nothing but a named step fails, the change persists or is undone.
      ensures files.reliable && ModelJournalWrite !in files.failing ==>
                (if MayApplyModel() then attempt.Persisted? else attempt.RolledBack?)
                && recoveryRequired == old(recoveryRequired)
    {
      var status := ApplyModelChange(prepared);
      if status.Crashed? {
        return Ended(Died);
      }
      if status.Raised? {
        status := RestoreModelChange(prepared, previousDocument);
        if !status.Ok? {
          recoveryRequired := recoveryRequired || status.Raised?;
          return Ended(if status.Raised? then RecoveryRequired else Died);
        }
        return RolledBack(prepared);
      }
      var committed;
      status, committed := modelJournal.MarkCommitted(prepared);
      if !status.Ok? {
        recoveryRequired := recoveryRequired || status.Raised?;
        return Ended(if status.Raised? then RecoveryRequired else Died);
      }
      return Persisted(committed);
    }

    /** Both stores are at the previous state, and no COMMITTED record of this change was ever durable. */
    ghost predicate MayStartModel(ends: ModelTx.ModelEndpoints)
      reads files, threads
    {
      !files.modelCommitted && ModelTx.AtPrevious(files, threads, ends)
    }

    /**
     The closure that runs inside the SQLite transaction, without its commit.
     `prepareDurable` tells whether preparing raised although its record became durable.
     */
    method PersistModel(threadId: string, model: Model, transactionId: string, ghost ends: ModelTx.ModelEndpoints)
      returns (attempt: ModelAttempt, preparedAttempt: bool, ghost prepareDurable: bool)
      requires Valid()
      requires ends.Valid() && ends.threadId == threadId && ends.target == model && threads.buffer == threads.committed
      requires files.modelJournal.None? ==> MayStartModel(ends)
      modifies this`recoveryRequired, files`config, files`modelJournal, files`modelCommitted, threads`buffer
      ensures old(files.modelJournal).None? ==> ModelTx.Recoverable(files, threads, ends)
      ensures !attempt.CommitUnknown?
      ensures attempt.Persisted? ==>
                && files.modelCommitted && ends.DescribedBy(attempt.record) && attempt.record.phase.ModelCommitted?
                && files.modelJournal == Some(attempt.record)
                && files.config == ends.TargetConfig() && threads.buffer == ends.TargetThreads()
      ensures attempt.RolledBack? ==>
                && !files.modelCommitted && ends.DescribedBy(attempt.record) && attempt.record.phase.ModelPrepared?
                && files.modelJournal == Some(attempt.record)
                && files.config == ends.previousConfig
      ensures attempt == Ended(RaisedOriginal) ==> files.modelJournal.None? && !files.modelCommitted
      ensures old(recoveryRequired) ==> recoveryRequired
      ensures old(recoveryRequired || files.modelJournal.Some? || !Credential.Clean(files)) ==>
                (attempt == Ended(RecoveryRequired) || attempt == Ended(Died)) && !preparedAttempt
                && files.config == old(files.config) && files.modelJournal == old(files.modelJournal)
                && files.modelCommitted == old(files.modelCommitted)
      ensures attempt == Ended(RecoveryRequired) ==> recoveryRequired
      ensures !preparedAttempt ==>
                && attempt.Ended? && files.config == old(files.config)
                && files.modelCommitted == old(files.modelCommitted)
      ensures prepareDurable <==>
                && attempt == Ended(RecoveryRequired) && !preparedAttempt
                && old(files.modelJournal).None? && files.modelJournal.Some?
      ensures attempt.Ended? ==> !attempt.report.Returned?
      ensures old(&& files.reliable && ModelJournalWrite !in files.failing && !recoveryRequired
                  && Credential.Clean(files) && files.modelJournal.None?) ==>
                && (if MayApplyModel() then attempt.Persisted? else attempt.RolledBack?)
                && preparedAttempt && !recoveryRequired
      ensures old(&& files.reliable && ModelJournalWrite in files.failing
                  && !recoveryRequired && Credential.Clean(files) && files.modelJournal.None?)
              ==> prepareDurable
    {
      preparedAttempt, prepareDurable := false, false;
      var status := RequireConsistent();
      if !status.Ok? {
        return Ended(if status.Raised? then RecoveryRequired else Died), preparedAttempt, prepareDurable;
      }
      var previousDocument;
      status, previousDocument := files.ReadConfig();
      if !status.Ok? {
        return Ended(if status.Raised? then RaisedOriginal else Died), preparedAttempt, prepareDurable;
      }
      var previousModel;
      status, previousModel := threads.ReadThread(threadId);
      if !status.Ok? {
        return Ended(if status.Raised? then RaisedOriginal else Died), preparedAttempt, prepareDurable;
      }
      var prepared := ModelRecord(
        transactionId, ModelPrepared, threadId, previousDocument.defaultModel, model, previousModel, model);
      status := modelJournal.Prepare(prepared);
      if !status.Ok? {
        prepareDurable := status.Raised? && files.modelJournal.Some?;
        recoveryRequired := recoveryRequired || status.Raised?;
        return Ended(if status.Raised? then RecoveryRequired else Died), preparedAttempt, prepareDurable;
      }
      preparedAttempt := true;
      attempt := PersistPrepared(prepared, previousDocument, ends);
    }

    /**
     The first SQLite transaction of a model change. Rolling back leaves the committed
     threads alone; a commit that raises leaves their state unknown to this process.
     */
    method PersistModelTransaction(
      threadId: string, model: Model, transactionId: string, ghost ends: ModelTx.ModelEndpoints)
      returns (attempt: ModelAttempt, ghost prepareDurable: bool, ghost rollbackRaised: bool)
      requires Valid()
      requires ends.Valid() && ends.threadId == threadId && ends.target == model
      requires files.modelJournal.None? ==> MayStartModel(ends)
      modifies this`recoveryRequired, files`config, files`modelJournal, files`modelCommitted, threads
      ensures old(files.modelJournal).None? ==> ModelTx.Recoverable(files, threads, ends)
      ensures attempt.Persisted? || attempt.CommitUnknown? ==>
                && files.modelCommitted && ends.DescribedBy(attempt.record) && attempt.record.phase.ModelCommitted?
                && files.modelJournal == Some(attempt.record)
      ensures attempt.Persisted? ==> ModelTx.AtTarget(files, threads, ends)
      ensures attempt.RolledBack? ==>
                && !files.modelCommitted && ends.DescribedBy(attempt.record) && attempt.record.phase.ModelPrepared?
                && files.modelJournal == Some(attempt.record) && ModelTx.AtPrevious(files, threads, ends)
      ensures attempt == Ended(RaisedOriginal) && old(files.modelJournal).None? ==>
                && !files.modelCommitted && ModelTx.AtPrevious(files, threads, ends)
                && (files.modelJournal.None? || recoveryRequired)
      ensures old(files.modelJournal).None? ==>
                (attempt == Ended(RaisedOriginal) && files.modelJournal.Some? <==> prepareDurable && rollbackRaised)
      ensures old(recoveryRequired) ==> recoveryRequired
      ensures old(recoveryRequired || files.modelJournal.Some? || !Credential.Clean(files)) ==>
                attempt.Ended? && files.config == old(files.config) && threads.committed == old(threads.committed)
                && files.modelJournal == old(files.modelJournal) && files.modelCommitted == old(files.modelCommitted)
      ensures prepareDurable ==> files.modelJournal.Some? && !files.modelCommitted && recoveryRequired
      ensures attempt == Ended(RecoveryRequired) ==> recoveryRequired
      ensures attempt.Ended? ==> !attempt.report.Returned?
      ensures old(files.reliable && !recoveryRequired && Credential.Clean(files) && files.modelJournal.None?) ==>
                if ModelJournalWrite in files.failing then
                  attempt == Ended(if DatabaseRollback in files.failing then RaisedOriginal else RecoveryRequired)
                else if MayApplyModel() then attempt.Persisted? && !recoveryRequired
                else if DatabaseRollback in files.failing then attempt == Ended(RecoveryRequired)
                else attempt.RolledBack? && !recoveryRequired
      ensures old(&& files.reliable && ModelJournalWrite in files.failing && DatabaseRollback in files.failing
                  && !recoveryRequired && Credential.Clean(files) && files.modelJournal.None?)
              ==> prepareDurable && rollbackRaised
    {
      prepareDurable, rollbackRaised := false, false;
      var status := threads.Begin();
      if !status.Ok? {
        attempt := Ended(if status.Raised? then RaisedOriginal else Died);
        return;
      }
      var preparedAttempt;
      attempt, preparedAttempt, prepareDurable := PersistModel(threadId, model, transactionId, ends);
      if attempt == Ended(Died) {
        return;
      }
      if attempt.Persisted? {
        status := threads.Commit();
        match status {
          case Ok =>
          case Raised => attempt := CommitUnknown(attempt.record);
          case Crashed => attempt := Ended(Died);
        }
        return;
      }
      status := files.Touch(); // the SQLite rollback itself
      if files.reliable && DatabaseRollback in files.failing {
        status := Raised;
      }
      if status.Crashed? {
        attempt := Ended(Died);
      } else if status.Raised? {
        // The rollback error replaces the closure's, and is passed on when no prepare returned.
        rollbackRaised := true;
        if preparedAttempt {
          recoveryRequired := true;
          attempt := Ended(RecoveryRequired);
        } else {
          attempt := Ended(RaisedOriginal);
        }
      }
    }

    /**
     After a commit that raised, read back both stores in a new transaction. Only the
     exact target lets the change go on.
     */
    method ResolveModelTransactionBoundary(record: ModelRecord, ghost ends: ModelTx.ModelEndpoints)
      returns (attempt: ModelAttempt)
      requires Valid() && ModelTx.Recoverable(files, threads, ends)
      requires ends.DescribedBy(record) && record.phase.ModelCommitted? && files.modelCommitted
      requires files.modelJournal.Some? ==> files.modelJournal == Some(record)
      modifies this`recoveryRequired, threads`buffer
      ensures attempt == Persisted(record) || attempt == Ended(Died)
           || (attempt == Ended(RecoveryRequired) && recoveryRequired)
      ensures attempt.Persisted? ==> ModelTx.AtTarget(files, threads, ends)
      ensures files.reliable && ModelTx.AtTarget(files, threads, ends) ==> attempt.Persisted?
    {
      var status := threads.Begin();
      var targetMatches, previousMatches := false, false;
      var observed: Option<ModelRecord> := None;
      if status.Ok? {
        status, observed := modelJournal.Read();
      }
      if status.Ok? && observed.Some? && observed != Some(record) {
        status := Raised;
      }
      if status.Ok? {
        var document, threadModel;
        status, document := files.ReadConfig();
        if status.Ok? {
          status, threadModel := threads.ReadThread(record.threadId);
        }
        if status.Ok? {
          targetMatches := document.defaultModel == Some(record.targetDefaultModel)
                           && threadModel == Some(record.targetThreadModel);
          previousMatches := document.defaultModel == record.previousDefaultModel
                             && threadModel == record.previousThreadModel;
          if targetMatches {
            status := LoadConfiguration();
          } else if observed.Some? || !previousMatches {
            status := Raised;
          }
        }
      }
      if status.Ok? {
        status := files.Touch(); // this transaction changed nothing; its commit can still raise
      }
      match status {
        case Ok =>
          if targetMatches {
            TargetModelsAreTarget(ends);
            attempt := Persisted(record);
          } else {
            attempt := Ended(RaisedOriginal);
          }
        case Raised =>
          recoveryRequired := true;
          attempt := Ended(RecoveryRequired);
        case Crashed =>
          attempt := Ended(Died);
      }
    }

    /** The second SQLite transaction: finalize a persisted change, or a rolled-back one. */
    method FinalizeModelTransaction(attempt: ModelAttempt, ghost ends: ModelTx.ModelEndpoints)
      returns (report: Report)
      requires Valid() && ModelTx.Recoverable(files, threads, ends)
      requires attempt.Persisted? || attempt.RolledBack?
      requires ends.DescribedBy(attempt.record) && ModelTx.AtEndpoint(files, threads, ends)
      requires attempt.Persisted? <==> attempt.record.phase.ModelCommitted?
      requires attempt.Persisted? <==> files.modelCommitted
      modifies this`recoveryRequired, files`modelJournal, threads
      ensures ModelTx.Recoverable(files, threads, ends) && ModelTx.AtEndpoint(files, threads, ends)
      ensures threads.committed == old(threads.committed)
      ensures report.Returned? ==> attempt.Persisted? && files.modelJournal.None?
      ensures report.RaisedOriginal? ==> attempt.RolledBack? && files.modelJournal.None?
      ensures report.RecoveryRequired? ==> recoveryRequired
      ensures files.modelJournal == old(files.modelJournal) || files.modelJournal.None?
      ensures (files.reliable && (old(files.modelJournal).None? || old(files.modelJournal) == Some(attempt.record)))
              ==> report == (if attempt.Persisted? then Returned else RaisedOriginal)
                  && recoveryRequired == old(recoveryRequired)
    {
      var status := threads.Begin();
      if status.Ok? {
        status := ModelTx.VerifyAndClear(modelJournal, threads, attempt.record, ends);
      }
      if status.Ok? && attempt.Persisted? {
        status := LoadConfiguration();
      }
      if status.Ok? {
        status := threads.Commit();
      }
      match status {
        case Ok =>
          report := if attempt.Persisted? then Returned else RaisedOriginal;
        case Raised =>
          recoveryRequired := true;
          report := RecoveryRequired;
        case Crashed =>
          report := Died;
      }
    }

    /**
     Change one model. Success means both stores are at the target and the journal is
     cleared; re-raising means both are at the previous state. A re-raise leaves a
     journal exactly when preparing raised with its record durable and the rollback
     raised too; then the service is fenced.
     */
    method PersistModelAndFinalize(
      threadId: string, model: Model, transactionId: string, ghost ends: ModelTx.ModelEndpoints)
      returns (report: Report, ghost prepareDurable: bool, ghost rollbackRaised: bool)
      requires Valid()
      requires ends.Valid() && ends.threadId == threadId && ends.target == model
      requires files.modelJournal.None? ==> MayStartModel(ends)
      modifies this`recoveryRequired, files`config, files`modelJournal, files`modelCommitted, threads
      ensures old(files.modelJournal).None? ==> ModelTx.Recoverable(files, threads, ends)
      ensures report.Returned? ==>
                files.modelCommitted && ModelTx.AtTarget(files, threads, ends) && files.modelJournal.None?
      ensures report.RaisedOriginal? && old(files.modelJournal).None? ==>
                && ModelTx.AtPrevious(files, threads, ends) && !files.modelCommitted
                && (files.modelJournal.None? || recoveryRequired)
      ensures old(files.modelJournal).None? ==>
                (report.RaisedOriginal? && files.modelJournal.Some? <==> prepareDurable && rollbackRaised)
      // A pending change of either kind, or a fence, refuses this one.
      ensures old(recoveryRequired) ==> recoveryRequired
      ensures old(recoveryRequired || files.modelJournal.Some? || !Credential.Clean(files)) ==>
                && !report.Returned? && files.config == old(files.config) && threads.committed == old(threads.committed)
                && files.modelJournal == old(files.modelJournal) && files.modelCommitted == old(files.modelCommitted)
      ensures report.RecoveryRequired? ==> recoveryRequired
      // When nothing but a named step fails, the outcome is certain, and mostly nothing is left behind.
      ensures old(files.reliable && !recoveryRequired && Credential.Clean(files) && files.modelJournal.None?) ==>
                if ModelJournalWrite in files.failing then
                  report == if DatabaseRollback in files.failing then RaisedOriginal else RecoveryRequired
                else if MayApplyModel() then report.Returned? && files.modelJournal.None? && !recoveryRequired
                else if DatabaseRollback in files.failing then report.RecoveryRequired?
                else report.RaisedOriginal? && files.modelJournal.None? && !recoveryRequired
      ensures old(&& files.reliable && ModelJournalWrite in files.failing && DatabaseRollback in files.failing
                  && !recoveryRequired && Credential.Clean(files) && files.modelJournal.None?)
              ==> prepareDurable && rollbackRaised
    {
      var attempt;
      attempt, prepareDurable, rollbackRaised := PersistModelTransaction(threadId, model, transactionId, ends);
      if attempt.CommitUnknown? {
        attempt := ResolveModelTransactionBoundary(attempt.record, ends);
      }
      if attempt.Ended? {
        report := attempt.report;
        return;
      }
      report := FinalizeModelTransaction(attempt, ends);
    }
  }

  /** A store that already holds the target model is at its whole target state. */
  lemma TargetModelsAreTarget(ends: ModelTx.ModelEndpoints)
    requires ends.Valid()
    ensures ends.previousThreads[ends.threadId] == Some(ends.target) ==> ends.TargetThreads() == ends.previousThreads
    ensures ends.previousConfig.defaultModel == Some(ends.target) ==> ends.TargetConfig() == ends.previousConfig
  {
  }
}
