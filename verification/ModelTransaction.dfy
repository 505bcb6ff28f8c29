/**
 One model change spans the configuration document and the SQLite thread table. The
 document is replaced inside the SQLite transaction, so a journal decides which
 endpoint both stores must reach when the two do not commit together.
 */
module ModelTransaction {
  import opened Outcomes
  import opened UserState

  type Threads = map<string, Option<Model>>

  /** The two endpoints of one model change. */
  datatype ModelEndpoints = ModelEndpoints(
    threadId: string, previousConfig: Config, previousThreads: Threads, target: Model)
  {
    predicate Valid() {
      threadId in previousThreads
    }

    function TargetConfig(): Config {
      WithDefaultModel(previousConfig, Some(target))
    }

    function TargetThreads(): Threads {
      previousThreads[threadId := Some(target)]
    }

    predicate DescribedBy(record: ModelRecord)
      requires Valid()
    {
      && record.threadId == threadId
      && record.previousDefaultModel == previousConfig.defaultModel
      && record.previousThreadModel == previousThreads[threadId]
      && record.targetDefaultModel == target
      && record.targetThreadModel == target
    }
  }

  /**
   The Application SQLite thread models. A transaction takes the write lock first, so
   nothing else commits while it runs; its changes stay in `buffer` until it commits.
   */
  class ThreadStore {
    const files: UserFiles
    var committed: Threads
    var buffer: Threads

    constructor (files: UserFiles, threads: Threads)
      ensures this.files == files && committed == threads
    {
      this.files := files;
      committed, buffer := threads, threads;
    }

    method Begin() returns (status: Status)
      modifies this`buffer
      ensures buffer == committed
      ensures files.reliable ==> status.Ok?
    {
      buffer := committed;
      status := files.Touch();
    }

    method ReadThread(threadId: string) returns (status: Status, model: Option<Model>)
      ensures status.Ok? ==> threadId in buffer && model == buffer[threadId]
      ensures files.reliable && threadId in buffer ==> status.Ok?
    {
      if threadId !in buffer {
        return Raised, None;
      }
      model := buffer[threadId];
      status := files.Touch();
    }

    method SetModel(threadId: string, model: Option<Model>) returns (status: Status)
      modifies this`buffer
      ensures buffer == old(buffer) || (threadId in old(buffer) && buffer == old(buffer)[threadId := model])
      ensures status.Ok? ==> threadId in old(buffer) && buffer == old(buffer)[threadId := model]
      ensures files.reliable && threadId in old(buffer) ==> status.Ok?
    {
      if threadId !in buffer {
        return Raised;
      }
      var durable;
      durable, status := files.Attempt();
      if durable {
        buffer := buffer[threadId := model];
      }
    }

    /** Publish the buffer. A commit that raises may or may not have been durable. */
    method Commit() returns (status: Status)
      modifies this`committed
      ensures committed == old(committed) || committed == buffer
      ensures status.Ok? ==> committed == buffer
      ensures files.reliable ==> status.Ok?
    {
      var durable;
      durable, status := files.Attempt();
      if durable {
        committed := buffer;
      }
    }
  }

  predicate AtPrevious(files: UserFiles, threads: ThreadStore, ends: ModelEndpoints)
    reads files, threads
  {
    files.config == ends.previousConfig && threads.committed == ends.previousThreads
  }

  predicate AtTarget(files: UserFiles, threads: ThreadStore, ends: ModelEndpoints)
    reads files, threads
  {
    files.config == ends.TargetConfig() && threads.committed == ends.TargetThreads()
  }

  /** The endpoint the journal's history selects: the target once COMMITTED was durable. */
  ghost predicate AtEndpoint(files: UserFiles, threads: ThreadStore, ends: ModelEndpoints)
    reads files, threads
  {
    if files.modelCommitted then AtTarget(files, threads, ends) else AtPrevious(files, threads, ends)
  }

  /**
   The durable states a crash may leave. Before COMMITTED the thread table has not
   changed; from COMMITTED on the document is at the target; and the journal is only
   absent once both stores are at the same endpoint.
   */
  ghost predicate Recoverable(files: UserFiles, threads: ThreadStore, ends: ModelEndpoints)
    reads files, threads
  {
    && ends.Valid()
    && (files.modelJournal.None? ==> AtEndpoint(files, threads, ends))
    && (files.modelJournal.Some? ==>
          && ends.DescribedBy(files.modelJournal.value)
          && files.modelJournal.value.phase.ModelCommitted? == files.modelCommitted)
    && (files.config == ends.TargetConfig() || (!files.modelCommitted && files.config == ends.previousConfig))
    && (threads.committed == ends.previousThreads
        || (files.modelCommitted && threads.committed == ends.TargetThreads()))
  }

  /** The models a record asks for. */
  function WantedDefault(record: ModelRecord): Option<Model> {
    if record.phase.ModelCommitted? then Some(record.targetDefaultModel) else record.previousDefaultModel
  }

  function WantedThread(record: ModelRecord): Option<Model> {
    if record.phase.ModelCommitted? then Some(record.targetThreadModel) else record.previousThreadModel
  }

  class ProviderModelTransactionJournal {
    const files: UserFiles

    constructor (files: UserFiles)
      ensures this.files == files
    {
      this.files := files;
    }

    method Read() returns (status: Status, record: Option<ModelRecord>)
      ensures status.Ok? ==> record == files.modelJournal && (record.Some? ==> record.value.Valid())
      ensures files.reliable && (files.modelJournal.Some? ==> files.modelJournal.value.Valid()) ==> status.Ok?
    {
      record := files.modelJournal;
      status := files.Touch();
      if status.Ok? && record.Some? && !record.value.Valid() {
        status := Raised;
      }
    }

    method Write(record: ModelRecord) returns (status: Status)
      modifies files`modelJournal, files`modelCommitted
      ensures || (files.modelJournal == old(files.modelJournal) && files.modelCommitted == old(files.modelCommitted))
              || (files.modelJournal == Some(record)
                  && files.modelCommitted == (old(files.modelCommitted) || record.phase.ModelCommitted?))
      ensures status.Ok? ==>
                files.modelJournal == Some(record)
                && files.modelCommitted == (old(files.modelCommitted) || record.phase.ModelCommitted?)
      ensures files.reliable && ModelJournalWrite !in files.failing && record.Valid() ==> status.Ok?
      ensures files.reliable && ModelJournalWrite in files.failing ==>
                status.Raised? && files.modelJournal == Some(record)
    {
      var durable;
      durable, status := files.Attempt();
      if files.reliable && ModelJournalWrite in files.failing {
        durable, status := true, Raised;
      }
      if durable {
        files.modelJournal := Some(record);
        if record.phase.ModelCommitted? {
          files.modelCommitted := true;
        }
      }
      if !status.Ok? {
        return;
      }
      var observed :- Read();
      return if observed == Some(record) then Ok else Raised;
    }

    method Prepare(record: ModelRecord) returns (status: Status)
      requires record.phase.ModelPrepared?
      modifies files`modelJournal, files`modelCommitted
      ensures files.modelCommitted == old(files.modelCommitted)
      ensures files.modelJournal == old(files.modelJournal)
           || (old(files.modelJournal).None? && files.modelJournal == Some(record))
      ensures status.Ok? ==> files.modelJournal == Some(record)
      ensures (&& files.reliable && ModelJournalWrite !in files.failing
               && record.Valid() && old(files.modelJournal).None?)
              ==> status.Ok?
      ensures files.reliable && ModelJournalWrite in files.failing && old(files.modelJournal).None? ==>
                status.Raised? && files.modelJournal == Some(record)
    {
      var pending :- Read();
      if pending.Some? {
        return Raised;
      }
      status := Write(record);
    }

    method MarkCommitted(prepared: ModelRecord) returns (status: Status, committed: ModelRecord)
      requires prepared.phase.ModelPrepared?
      modifies files`modelJournal, files`modelCommitted
      ensures committed == prepared.(phase := ModelCommitted)
      ensures || (files.modelJournal == old(files.modelJournal) && files.modelCommitted == old(files.modelCommitted))
              || (old(files.modelJournal) == Some(prepared)
                  && files.modelJournal == Some(committed) && files.modelCommitted)
      ensures status.Ok? ==> files.modelJournal == Some(committed) && files.modelCommitted
      ensures (&& files.reliable && ModelJournalWrite !in files.failing
               && prepared.Valid() && old(files.modelJournal) == Some(prepared))
              ==> status.Ok?
    {
      committed := prepared.(phase := ModelCommitted);
      var observed :- Read();
      if observed != Some(prepared) {
        return Raised, committed;
      }
      status := Write(committed);
    }

    method Clear(expected: ModelRecord) returns (status: Status)
      modifies files`modelJournal
      ensures files.modelJournal == old(files.modelJournal)
           || (old(files.modelJournal) == Some(expected) && files.modelJournal.None?)
      ensures status.Ok? ==> files.modelJournal.None?
      ensures files.reliable && expected.Valid() && old(files.modelJournal) == Some(expected) ==> status.Ok?
    {
      var observed :- Read();
      if observed != Some(expected) {
        return Raised;
      }
      observed :- Read();
      if observed != Some(expected) {
        return Raised;
      }
      var durable;
      durable, status := files.Attempt();
      if durable {
        files.modelJournal := None;
      }
    }
  }

  /** Default model and thread model are the ones given. */
  method VerifyModelTransactionState(
    files: UserFiles, threads: ThreadStore, threadId: string,
    expectedDefault: Option<Model>, expectedThread: Option<Model>)
    returns (status: Status)
    requires threads.files == files
    ensures status.Ok? ==>
              && files.config.defaultModel == expectedDefault
              && threadId in threads.buffer && threads.buffer[threadId] == expectedThread
    ensures (&& files.reliable && files.config.defaultModel == expectedDefault
             && threadId in threads.buffer && threads.buffer[threadId] == expectedThread)
            ==> status.Ok?
  {
    var document :- files.ReadConfig();
    if document.defaultModel != expectedDefault {
      return Raised;
    }
    var observed :- threads.ReadThread(threadId);
    return if observed == expectedThread then Ok else Raised;
  }

  /** Document and thread table hold the models the record asks for. */
  predicate HoldsWanted(files: UserFiles, threads: ThreadStore, record: ModelRecord)
    reads files, threads
  {
    && files.config.defaultModel == WantedDefault(record)
    && record.threadId in threads.committed
    && threads.committed[record.threadId] == WantedThread(record)
  }

  /**
   The first recovery transaction: bring both stores to the endpoint the journal
   selects and commit. It never touches the journal.
   */
  method ReconcileTransaction(
    journal: ProviderModelTransactionJournal, threads: ThreadStore, ghost ends: ModelEndpoints)
    returns (status: Status, record: Option<ModelRecord>)
    requires threads.files == journal.files
    modifies journal.files`config, threads
    ensures old(Recoverable(journal.files, threads, ends)) ==>
              && Recoverable(journal.files, threads, ends)
              && (old(AtEndpoint(journal.files, threads, ends)) ==> AtEndpoint(journal.files, threads, ends))
              && (status.Ok? ==> AtEndpoint(journal.files, threads, ends))
              && (journal.files.reliable ==> status.Ok?)
    ensures status.Ok? ==> record == journal.files.modelJournal
    // Whatever else the document says, only the default model and the one thread move.
    ensures journal.files.config == old(journal.files.config)
         || (journal.files.modelJournal.Some?
             && journal.files.config
                == WithDefaultModel(old(journal.files.config), WantedDefault(journal.files.modelJournal.value)))
    ensures status.Ok? && record.Some? ==> HoldsWanted(journal.files, threads, record.value)
    ensures status.Ok? && record.Some? ==>
              && record.value.threadId in old(threads.committed)
              && threads.committed == old(threads.committed)[record.value.threadId := WantedThread(record.value)]
    ensures (&& journal.files.reliable && journal.files.modelJournal.Some?
             && journal.files.modelJournal.value.Valid()
             && journal.files.modelJournal.value.threadId in old(threads.committed))
            ==> status.Ok?
  {
    var files := journal.files;
    record := None;
    :- threads.Begin();
    var pending :- journal.Read();
    if pending.Some? {
      var wanted := pending.value;
      :- files.UpdateDefaultModel(WantedDefault(wanted));
      :- threads.SetModel(wanted.threadId, WantedThread(wanted));
      if old(Recoverable(files, threads, ends)) {
        EndpointMaps(ends);
      }
      :- VerifyModelTransactionState(
        files, threads, wanted.threadId, WantedDefault(wanted), WantedThread(wanted));
    }
    :- threads.Commit();
    return Ok, pending;
  }

  lemma EndpointMaps(ends: ModelEndpoints)
    requires ends.Valid()
    ensures ends.previousThreads[ends.threadId := ends.previousThreads[ends.threadId]] == ends.previousThreads
    ensures ends.TargetThreads()[ends.threadId := ends.previousThreads[ends.threadId]] == ends.previousThreads
    ensures ends.TargetThreads()[ends.threadId := Some(ends.target)] == ends.TargetThreads()
    ensures WithDefaultModel(ends.TargetConfig(), ends.previousConfig.defaultModel) == ends.previousConfig
  {
  }

  /**
   The body of every finalizing transaction: the journal must be absent or exactly the
   given record, both stores must be at that record's endpoint, and only then is the
   journal cleared.
   */
  method VerifyAndClear(
    journal: ProviderModelTransactionJournal, threads: ThreadStore, record: ModelRecord,
    ghost ends: ModelEndpoints)
    returns (status: Status)
    requires threads.files == journal.files && threads.buffer == threads.committed
    modifies journal.files`modelJournal
    ensures journal.files.modelJournal == old(journal.files.modelJournal)
         || (old(journal.files.modelJournal) == Some(record) && journal.files.modelJournal.None?
             && HoldsWanted(journal.files, threads, record))
    ensures (&& journal.files.reliable && HoldsWanted(journal.files, threads, record)
             && old(journal.files.modelJournal) == Some(record) && record.Valid())
            ==> status.Ok?
    ensures status.Ok? ==>
              && journal.files.modelJournal.None?
              && (old(journal.files.modelJournal).None? || old(journal.files.modelJournal) == Some(record))
    ensures old(Recoverable(journal.files, threads, ends)) ==> Recoverable(journal.files, threads, ends)
    ensures (&& old(Recoverable(journal.files, threads, ends)) && journal.files.reliable
             && ends.DescribedBy(record)
             && record.phase.ModelCommitted? == journal.files.modelCommitted
             && old(AtEndpoint(journal.files, threads, ends))
             && (old(journal.files.modelJournal).None? || old(journal.files.modelJournal) == Some(record)))
            ==> status.Ok?
  {
    var files := journal.files;
    var observed :- journal.Read();
    if observed.Some? && observed != Some(record) {
      return Raised;
    }
    :- VerifyModelTransactionState(
      files, threads, record.threadId, WantedDefault(record), WantedThread(record));
    if observed.Some? {
      if old(Recoverable(files, threads, ends)) {
        VerifiedStateIsEndpoint(files, threads, ends, record);
      }
      :- journal.Clear(record);
    }
    return Ok;
  }

  /** Within the recoverable states, the models a record names determine the whole endpoint. */
  lemma VerifiedStateIsEndpoint(
    files: UserFiles, threads: ThreadStore, ends: ModelEndpoints, record: ModelRecord)
    requires Recoverable(files, threads, ends)
    requires files.modelJournal == Some(record)
    requires HoldsWanted(files, threads, record)
    ensures AtEndpoint(files, threads, ends)
  {
    assert ends.TargetThreads()[ends.threadId] == Some(ends.target);
    var target := Some(ends.target);
    if threads.committed[ends.threadId] == target && ends.previousThreads[ends.threadId] == target {
      assert ends.TargetThreads() == ends.previousThreads;
    }
  }

  /** The second recovery transaction; a change that rolled back is finalized the same way. */
  method FinalizeTransaction(
    journal: ProviderModelTransactionJournal, threads: ThreadStore, record: ModelRecord,
    ghost ends: ModelEndpoints)
    returns (status: Status)
    requires threads.files == journal.files
    modifies journal.files`modelJournal, threads
    ensures threads.committed == old(threads.committed)
    ensures journal.files.modelJournal == old(journal.files.modelJournal)
         || (old(journal.files.modelJournal) == Some(record) && journal.files.modelJournal.None?)
    ensures status.Ok? ==> journal.files.modelJournal.None?
    ensures old(Recoverable(journal.files, threads, ends)) ==> Recoverable(journal.files, threads, ends)
    ensures (&& old(Recoverable(journal.files, threads, ends)) && journal.files.reliable
             && ends.DescribedBy(record)
             && record.phase.ModelCommitted? == journal.files.modelCommitted
             && old(AtEndpoint(journal.files, threads, ends))
             && (old(journal.files.modelJournal).None? || old(journal.files.modelJournal) == Some(record)))
            ==> status.Ok?
    ensures (&& journal.files.reliable && old(HoldsWanted(journal.files, threads, record))
             && old(journal.files.modelJournal) == Some(record) && record.Valid())
            ==> status.Ok?
  {
    status := threads.Begin();
    if !status.Ok? {
      return;
    }
    :- VerifyAndClear(journal, threads, record, ends);
    status := threads.Commit();
  }

  /** Startup recovery: reconcile in one SQLite transaction, then verify and clear in another. */
  method ReconcileProviderModelTransaction(
    journal: ProviderModelTransactionJournal, threads: ThreadStore, ghost ends: ModelEndpoints)
    returns (status: Status, changed: bool)
    requires threads.files == journal.files
    modifies journal.files`config, journal.files`modelJournal, threads
    ensures old(Recoverable(journal.files, threads, ends)) ==>
              && Recoverable(journal.files, threads, ends)
              && (old(AtEndpoint(journal.files, threads, ends)) ==> AtEndpoint(journal.files, threads, ends))
              && (status.Ok? ==> AtEndpoint(journal.files, threads, ends))
              && (journal.files.reliable ==> status.Ok?)
    ensures status.Ok? ==>
              journal.files.modelJournal.None? && changed == old(journal.files.modelJournal).Some?
    // A document or thread table edited elsewhere since the crash keeps every other change.
    ensures old(journal.files.modelJournal).Some? ==>
              var record := old(journal.files.modelJournal).value;
              && (journal.files.config == old(journal.files.config)
                  || journal.files.config == WithDefaultModel(old(journal.files.config), WantedDefault(record)))
              && (status.Ok? ==>
                    && HoldsWanted(journal.files, threads, record)
                    && record.threadId in old(threads.committed)
                    && threads.committed == old(threads.committed)[record.threadId := WantedThread(record)])
              && (journal.files.reliable && record.Valid() && record.threadId in old(threads.committed) ==> status.Ok?)
    ensures journal.files.modelJournal == old(journal.files.modelJournal) || journal.files.modelJournal.None?
    ensures old(journal.files.modelJournal).None? ==>
              && journal.files.config == old(journal.files.config) && threads.committed == old(threads.committed)
              && (journal.files.reliable ==> status.Ok?)
  {
    changed := false;
    var pending :- journal.Read();
    if pending.None? {
      return Ok, false;
    }
    var record;
    status, record := ReconcileTransaction(journal, threads, ends);
    if !status.Ok? || record.None? {
      return;
    }
    status := FinalizeTransaction(journal, threads, record.value, ends);
    changed := true;
  }
}
