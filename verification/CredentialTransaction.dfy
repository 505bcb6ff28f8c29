/**
 One credential change spans the secret file and the configuration document. A
 phased journal and a backup of the secret file make it atomic across a crash.
 */
module CredentialTransaction {
  import opened Outcomes
  import opened UserState

  const MAX_BACKUP_BYTES: nat := 1024 * 1024

  /** The two endpoints of one credential change. */
  datatype Endpoints = Endpoints(
    service: Service,
    previousSecret: Option<Bytes>,
    targetSecret: Option<Bytes>,
    previousConfig: Config,
    targetSource: Option<Source>)
  {
    function TargetConfig(): Config {
      WithSource(previousConfig, service, targetSource)
    }

    /** The record describes exactly this change, whatever its phase. */
    predicate DescribedBy(record: CredentialRecord) {
      && record.Valid()
      && record.service == service
      && record.previousSource == previousConfig.credentials.Get(service)
      && record.targetSource == targetSource
      && record.previousEnvExisted == previousSecret.Some?
      && record.previousEnvSha256 == Sha256(SnapshotOf(previousSecret).content)
      && record.targetEnvExisted == targetSecret.Some?
      && record.targetEnvSha256 == Sha256(SnapshotOf(targetSecret).content)
    }
  }

  predicate AtPrevious(files: UserFiles, ends: Endpoints)
    reads files
  {
    files.secret == ends.previousSecret && files.config == ends.previousConfig
  }

  predicate AtTarget(files: UserFiles, ends: Endpoints)
    reads files
  {
    files.secret == ends.targetSecret && files.config == ends.TargetConfig()
  }

  predicate Clean(files: UserFiles)
    reads files
  {
    files.credentialJournal.None? && files.credentialBackup.None?
  }

  /**
   The durable states a crash may leave. A COMMITTED journal means both stores are at
   the target; an uncommitted journal beside a changed secret file means the exact
   previous content is still in the backup.
   */
  ghost predicate Recoverable(files: UserFiles, ends: Endpoints)
    reads files
  {
    && |SnapshotOf(ends.previousSecret).content| <= MAX_SECRET_FILE_BYTES
    && |SnapshotOf(files.secret).content| <= MAX_SECRET_FILE_BYTES
    && (files.credentialBackup.None? || files.credentialBackup == ends.previousSecret)
    && match files.credentialJournal
       case None =>
         if files.credentialCommitted then AtTarget(files, ends) && files.credentialBackup.None?
         else AtPrevious(files, ends)
       case Some(record) =>
         && ends.DescribedBy(record)
         && record.phase.Committed? == files.credentialCommitted
         && if files.credentialCommitted then AtTarget(files, ends)
            else
              && (files.config == ends.previousConfig || files.config == ends.TargetConfig())
              && (files.secret == ends.previousSecret
                  || (files.secret == ends.targetSecret && files.credentialBackup == ends.previousSecret))
  }

  /** Selecting the source a document already has changes nothing, and the last selection wins. */
  lemma SourceRoundTrip(config: Config, service: Service, source: Option<Source>)
    ensures WithSource(WithSource(config, service, source), service, config.credentials.Get(service)) == config
    ensures WithSource(config, service, source).credentials.Get(service) == source
    ensures forall other | other != service ::
              WithSource(config, service, source).credentials.Get(other) == config.credentials.Get(other)
  {
  }

  /** Hashes and existence bits identify a secret file, because digests do not collide. */
  lemma RecordIdentifiesFiles(record: CredentialRecord, ends: Endpoints, file: Option<Bytes>)
    requires ends.DescribedBy(record)
    ensures record.MatchesPrevious(SnapshotOf(file)) <==> file == ends.previousSecret
    ensures record.MatchesTarget(SnapshotOf(file)) <==> file == ends.targetSecret
  {
    assert file.Some? ==> SnapshotOf(file).content == file.value;
    assert ends.previousSecret.Some? ==> SnapshotOf(ends.previousSecret).content == ends.previousSecret.value;
    assert ends.targetSecret.Some? ==> SnapshotOf(ends.targetSecret).content == ends.targetSecret.value;
  }

  class ProviderCredentialTransactionJournal {
    const files: UserFiles

    constructor (files: UserFiles)
      ensures this.files == files
    {
      this.files := files;
    }

    method Read() returns (status: Status, record: Option<CredentialRecord>)
      ensures status.Ok? ==> record == files.credentialJournal && (record.Some? ==> record.value.Valid())
      ensures files.reliable && (files.credentialJournal.Some? ==> files.credentialJournal.value.Valid()) ==> status.Ok?
    {
      record := files.credentialJournal;
      status := files.Touch();
      if status.Ok? && record.Some? && !record.value.Valid() {
        status := Raised;
      }
    }

    method BackupExists() returns (status: Status, exists_: bool)
      ensures status.Ok? ==> exists_ == files.credentialBackup.Some?
      ensures files.reliable ==> status.Ok?
    {
      exists_ := files.credentialBackup.Some?;
      status := files.Touch();
    }

    method StageBackup(snapshot: Snapshot) returns (status: Status)
      modifies files`credentialBackup
      ensures files.credentialBackup == old(files.credentialBackup)
           || (old(Clean(files)) && snapshot.existed && files.credentialBackup == Some(snapshot.content))
      ensures status.Ok? ==> old(Clean(files)) && files.credentialBackup == FileOf(snapshot)
      ensures files.reliable && old(Clean(files)) && |snapshot.content| <= MAX_BACKUP_BYTES ==> status.Ok?
    {
      var pending :- Read();
      var staged :- BackupExists();
      if pending.Some? || staged {
        return Raised;
      }
      if snapshot.existed {
        if |snapshot.content| > MAX_BACKUP_BYTES {
          return Raised;
        }
        var durable;
        durable, status := files.Attempt();
        if durable {
          files.credentialBackup := Some(snapshot.content);
        }
        return;
      }
      return Ok;
    }

    /** Store a record and read it back. */
    method Write(record: CredentialRecord) returns (status: Status)
      modifies files`credentialJournal, files`credentialCommitted
      ensures || (files.credentialJournal == old(files.credentialJournal)
                  && files.credentialCommitted == old(files.credentialCommitted))
              || (files.credentialJournal == Some(record)
                  && files.credentialCommitted == (old(files.credentialCommitted) || record.phase.Committed?))
      ensures status.Ok? ==>
                files.credentialJournal == Some(record)
                && files.credentialCommitted == (old(files.credentialCommitted) || record.phase.Committed?)
      ensures files.reliable && CredentialJournalWrite(record.phase) !in files.failing && record.Valid() ==> status.Ok?
      ensures files.reliable && CredentialJournalWrite(record.phase) in files.failing ==>
                status.Raised? && files.credentialJournal == Some(record)
    {
      var durable;
      durable, status := files.Attempt();
      if files.reliable && CredentialJournalWrite(record.phase) in files.failing {
        durable, status := true, Raised;
      }
      if durable {
        files.credentialJournal := Some(record);
        if record.phase.Committed? {
          files.credentialCommitted := true;
        }
      }
      if !status.Ok? {
        return;
      }
      var observed :- Read();
      if observed != Some(record) {
        return Raised;
      }
      return Ok;
    }

    method Prepare(record: CredentialRecord) returns (status: Status)
      requires record.phase.Prepared?
      modifies files`credentialJournal, files`credentialCommitted
      ensures files.credentialCommitted == old(files.credentialCommitted)
      ensures files.credentialJournal == old(files.credentialJournal)
           || (old(files.credentialJournal).None? && files.credentialJournal == Some(record))
      ensures status.Ok? ==> files.credentialJournal == Some(record)
      ensures (&& files.reliable && record.Valid() && old(files.credentialJournal).None?
               && record.MatchesPrevious(SnapshotOf(files.credentialBackup))
               && |SnapshotOf(files.credentialBackup).content| <= MAX_BACKUP_BYTES)
              ==> status == if CredentialJournalWrite(Prepared) in files.failing then Raised else Ok
    {
      var pending :- Read();
      if pending.Some? {
        return Raised;
      }
      :- VerifyStagedBackup(record);
      status := Write(record);
    }

    method Advance(current: CredentialRecord, phase: CredentialPhase)
      returns (status: Status, advanced: CredentialRecord)
      modifies files`credentialJournal, files`credentialCommitted
      ensures || (files.credentialJournal == old(files.credentialJournal)
                  && files.credentialCommitted == old(files.credentialCommitted))
              || (old(files.credentialJournal) == Some(current)
                  && files.credentialJournal == Some(current.(phase := phase))
                  && files.credentialCommitted == (old(files.credentialCommitted) || phase.Committed?))
      ensures status.Ok? ==>
                && advanced == current.(phase := phase)
                && files.credentialJournal == Some(advanced)
                && files.credentialCommitted == (old(files.credentialCommitted) || phase.Committed?)
      ensures files.reliable && current.Valid() && old(files.credentialJournal) == Some(current) ==>
                if CredentialJournalWrite(phase) in files.failing
                then status.Raised? && files.credentialJournal == Some(current.(phase := phase)) else status.Ok?
    {
      advanced := current.(phase := phase);
      var observed :- Read();
      if observed != Some(current) {
        return Raised, advanced;
      }
      status := Write(advanced);
    }

    /** The backed-up secret file, checked against the journal's hash. */
    method ReadBackup(record: CredentialRecord) returns (status: Status, snapshot: Snapshot)
      ensures status.Ok? ==>
                record.MatchesPrevious(snapshot) && snapshot.existed == files.credentialBackup.Some?
                && snapshot == SnapshotOf(files.credentialBackup)
      ensures (files.reliable && record.MatchesPrevious(SnapshotOf(files.credentialBackup))
               && |SnapshotOf(files.credentialBackup).content| <= MAX_BACKUP_BYTES) ==> status.Ok?
    {
      snapshot := SnapshotOf(files.credentialBackup);
      var staged :- BackupExists();
      if staged != record.previousEnvExisted || |snapshot.content| > MAX_BACKUP_BYTES {
        return Raised, snapshot;
      }
      if Sha256(snapshot.content) != record.previousEnvSha256 {
        return Raised, snapshot;
      }
      return Ok, snapshot;
    }

    method VerifyStagedBackup(record: CredentialRecord) returns (status: Status)
      ensures status.Ok? && record.previousEnvExisted ==>
                record.MatchesPrevious(SnapshotOf(files.credentialBackup))
      ensures status.Ok? && !record.previousEnvExisted ==> files.credentialBackup.None?
      ensures (files.reliable && record.MatchesPrevious(SnapshotOf(files.credentialBackup))
               && |SnapshotOf(files.credentialBackup).content| <= MAX_BACKUP_BYTES) ==> status.Ok?
    {
      if record.previousEnvExisted {
        var backup :- ReadBackup(record);
        return Ok;
      }
      var staged :- BackupExists();
      return if staged then Raised else Ok;
    }

    /** Remove the backup first and the journal last. */
    method Clear(expected: CredentialRecord) returns (status: Status)
      modifies files`credentialJournal, files`credentialBackup
      ensures || (files.credentialJournal == old(files.credentialJournal)
                  && (files.credentialBackup == old(files.credentialBackup) || files.credentialBackup.None?))
              || (old(files.credentialJournal) == Some(expected) && Clean(files))
      ensures old(files.credentialJournal) != Some(expected) ==>
                status != Ok && files.credentialBackup == old(files.credentialBackup)
      ensures status.Ok? ==> Clean(files)
      ensures files.reliable && expected.Valid() && old(files.credentialJournal) == Some(expected) ==> status.Ok?
    {
      var observed :- Read();
      if observed != Some(expected) {
        return Raised;
      }
      var durable;
      durable, status := files.Attempt();
      if durable {
        files.credentialBackup := None;
      }
      if !status.Ok? {
        return;
      }
      observed :- Read();
      if observed != Some(expected) {
        return Raised;
      }
      durable, status := files.Attempt();
      if durable {
        files.credentialJournal := None;
      }
    }

    method ClearOrphanBackup() returns (status: Status, cleared: bool)
      modifies files`credentialBackup
      ensures files.credentialBackup == old(files.credentialBackup) || files.credentialBackup.None?
      ensures status.Ok? ==> Clean(files) && cleared == old(files.credentialBackup).Some?
      ensures old(files.credentialJournal).Some? ==>
                status != Ok && files.credentialBackup == old(files.credentialBackup)
      ensures files.reliable && files.credentialJournal.None? ==> status.Ok?
    {
      cleared := false;
      var pending :- Read();
      if pending.Some? {
        return Raised, false;
      }
      var staged :- BackupExists();
      if !staged {
        return Ok, false;
      }
      var durable;
      durable, status := files.Attempt();
      if durable {
        files.credentialBackup := None;
      }
      cleared := true;
    }

    method RequireClean() returns (status: Status)
      ensures status.Ok? ==> Clean(files)
      ensures files.reliable && Clean(files) ==> status.Ok?
    {
      var pending :- Read();
      var staged :- BackupExists();
      return if pending.Some? || staged then Raised else Ok;
    }
  }

  /** Source and secret file are both at the endpoint the record names. */
  method VerifyCredentialTransactionState(files: UserFiles, record: CredentialRecord, useTarget: bool)
    returns (status: Status)
    ensures status.Ok? ==>
              && files.config.credentials.Get(record.service)
                 == (if useTarget then record.targetSource else record.previousSource)
              && (if useTarget then record.MatchesTarget(SnapshotOf(files.secret))
                  else record.MatchesPrevious(SnapshotOf(files.secret)))
    ensures (files.reliable && |SnapshotOf(files.secret).content| <= MAX_SECRET_FILE_BYTES
             && files.config.credentials.Get(record.service)
                == (if useTarget then record.targetSource else record.previousSource)
             && (if useTarget then record.MatchesTarget(SnapshotOf(files.secret))
                 else record.MatchesPrevious(SnapshotOf(files.secret))))
            ==> status.Ok?
  {
    var expected := if useTarget then record.targetSource else record.previousSource;
    var document :- files.ReadConfig();
    if document.credentials.Get(record.service) != expected {
      return Raised;
    }
    var current :- files.ReadSecret();
    var matches := if useTarget then record.MatchesTarget(current) else record.MatchesPrevious(current);
    return if matches then Ok else Raised;
  }

  /**
   Reconcile one interrupted credential change. From every recoverable state it stays
   recoverable whatever fails, and a run with no failing step finishes: at the target
   if the COMMITTED record was durable and at the previous state if it was not. A
   pending secret file that is neither endpoint is refused with nothing changed.
   */
  method ReconcileProviderCredentialTransaction(
    journal: ProviderCredentialTransactionJournal, ghost ends: Endpoints)
    returns (status: Status, reconciled: bool)
    modifies journal.files`secret, journal.files`config,
             journal.files`credentialJournal, journal.files`credentialBackup
    ensures old(Recoverable(journal.files, ends)) ==>
              && Recoverable(journal.files, ends)
              && (status.Ok? ==>
                    && Clean(journal.files)
                    && (reconciled <==> !old(Clean(journal.files)))
                    && (if journal.files.credentialCommitted then AtTarget(journal.files, ends)
                        else AtPrevious(journal.files, ends)))
              && (journal.files.reliable ==> status.Ok?)
    ensures old(Clean(journal.files)) ==>
              unchanged(journal.files) && (journal.files.reliable ==> status.Ok?)
    ensures var pending := old(journal.files.credentialJournal);
            var current := SnapshotOf(old(journal.files.secret));
            pending.Some? && !pending.value.MatchesTarget(current)
            && (pending.value.phase.Committed? || !pending.value.MatchesPrevious(current)) ==>
              status != Ok && unchanged(journal.files)
  {
    var files := journal.files;
    reconciled := false;
    var pending :- journal.Read();
    if pending.None? {
      status, reconciled := journal.ClearOrphanBackup();
      return;
    }
    var record := pending.value;
    var useTarget := record.phase.Committed?;
    var current :- files.ReadSecret();
    if old(Recoverable(files, ends)) {
      RecordIdentifiesFiles(record, ends, files.secret);
      RecordIdentifiesFiles(record, ends, files.credentialBackup);
    }
    var source;
    if useTarget {
      if !record.MatchesTarget(current) {
        return Raised, false;
      }
      source := record.targetSource;
    } else {
      if !record.MatchesPrevious(current) {
        if !record.MatchesTarget(current) {
          return Raised, false;
        }
        var backup :- journal.ReadBackup(record);
        :- files.RestoreSecret(backup);
      }
      source := record.previousSource;
    }
    SourceRoundTrip(ends.previousConfig, ends.service, ends.targetSource);
    :- files.UpdateSource(record.service, source);
    if old(Recoverable(files, ends)) {
      RecordIdentifiesFiles(record, ends, files.secret);
    }
    :- VerifyCredentialTransactionState(files, record, useTarget);
    status := journal.Clear(record);
    reconciled := true;
  }
}
