/**
 The durable user state that one provider-configuration change touches, and the
 primitive steps on it. Every write is one atomic replace or unlink, so a step
 that raises or dies has happened completely or not at all.
 */
module UserState {
  import opened Outcomes

  type Model = string

  datatype Service = DeepSeek | Kimi | Mem0 | Tavily
  datatype Source = Environment | Awesome

  /** SHA-256, taken to have no collisions: a digest determines what it was computed from. */
  datatype Digest = Digest(preimage: Bytes)

  const MAX_SECRET_FILE_BYTES: nat := 1024 * 1024

  function Sha256(content: Bytes): Digest {
    Digest(content)
  }

  /** A secret file as read: whether it was there, and its bytes. */
  datatype Snapshot = Snapshot(existed: bool, content: Bytes)

  function SnapshotOf(file: Option<Bytes>): Snapshot {
    match file
    case None => Snapshot(false, [])
    case Some(content) => Snapshot(true, content)
  }

  function FileOf(snapshot: Snapshot): Option<Bytes> {
    if snapshot.existed then Some(snapshot.content) else None
  }

  datatype Selection = Selection(
    deepseek: Option<Source>, kimi: Option<Source>, mem0: Option<Source>, tavily: Option<Source>)
  {
    function Get(service: Service): Option<Source> {
      match service
      case DeepSeek => deepseek
      case Kimi => kimi
      case Mem0 => mem0
      case Tavily => tavily
    }

    function Set(service: Service, source: Option<Source>): Selection {
      match service
      case DeepSeek => this.(deepseek := source)
      case Kimi => this.(kimi := source)
      case Mem0 => this.(mem0 := source)
      case Tavily => this.(tavily := source)
    }
  }

  /** The user configuration document; `rest` stands for every field no transaction here names. */
  datatype Config = Config(credentials: Selection, defaultModel: Option<Model>, rest: Bytes)

  function WithSource(config: Config, service: Service, source: Option<Source>): Config {
    config.(credentials := config.credentials.Set(service, source))
  }

  function WithDefaultModel(config: Config, model: Option<Model>): Config {
    config.(defaultModel := model)
  }

  datatype CredentialAction = Add | Replace | Delete
  datatype CredentialPhase = Prepared | SecretCommitted | Committed

  datatype CredentialRecord = CredentialRecord(
    phase: CredentialPhase,
    service: Service,
    environmentVariable: string,
    action: CredentialAction,
    previousSource: Option<Source>,
    targetSource: Option<Source>,
    previousEnvExisted: bool,
    previousEnvSha256: Digest,
    targetEnvExisted: bool,
    targetEnvSha256: Digest)
  {
    /** The validator that every read of the journal applies. */
    predicate Valid() {
      && environmentVariable == ProviderEnvironmentVariable(service)
      && (if action.Delete? then targetSource == previousSource
          else targetSource == Some(Awesome) && targetEnvExisted)
    }

    predicate MatchesPrevious(snapshot: Snapshot) {
      snapshot.existed == previousEnvExisted && Sha256(snapshot.content) == previousEnvSha256
    }

    predicate MatchesTarget(snapshot: Snapshot) {
      snapshot.existed == targetEnvExisted && Sha256(snapshot.content) == targetEnvSha256
    }
  }

  function ProviderEnvironmentVariable(service: Service): string {
    match service
    case DeepSeek => "DEEPSEEK_API_KEY"
    case Kimi => "MOONSHOT_API_KEY"
    case Mem0 => "MEM0_API_KEY"
    case Tavily => "TAVILY_API_KEY"
  }

  datatype ModelPhase = ModelPrepared | ModelCommitted

  datatype ModelRecord = ModelRecord(
    transactionId: string,
    phase: ModelPhase,
    threadId: string,
    previousDefaultModel: Option<Model>,
    targetDefaultModel: Model,
    previousThreadModel: Option<Model>,
    targetThreadModel: Model)
  {
    predicate Valid() {
      targetDefaultModel == targetThreadModel
    }
  }

  /** A step that is made to fail even while `reliable` holds: it takes effect, and then raises. */
  datatype Failure =
    | ModelJournalWrite
    | DatabaseRollback
    | DefaultModelWrite
    | ThreadModelWrite
    | SourceWrite
    | CredentialJournalWrite(phase: CredentialPhase)
    | CredentialJournalClear

  /**
   The user's files. While `reliable` holds no step fails but the ones in `failing`;
   otherwise any step may raise or lose the process, before or after its effect. `credentialCommitted` and
   `modelCommitted` are history variables: whether a COMMITTED record has become
   durable since they were last cleared.
   */
  class UserFiles {
    var secret: Option<Bytes>
    var config: Config
    var credentialJournal: Option<CredentialRecord>
    var credentialBackup: Option<Bytes>
    var modelJournal: Option<ModelRecord>
    ghost var credentialCommitted: bool
    ghost var modelCommitted: bool
    var reliable: bool
    var failing: set<Failure>

    constructor (secret: Option<Bytes>, config: Config)
      ensures this.secret == secret && this.config == config
      ensures credentialJournal.None? && credentialBackup.None? && modelJournal.None?
      ensures !credentialCommitted && !modelCommitted && !reliable && failing == {}
    {
      this.secret := secret;
      this.config := config;
      credentialJournal, credentialBackup, modelJournal := None, None, None;
      reliable, failing := false, {};
      credentialCommitted, modelCommitted := false, false;
    }

    /** Any step that changes nothing durable. */
    method Touch() returns (status: Status)
      ensures reliable ==> status.Ok?
    {
      status := *;
      if reliable {
        status := Ok;
      }
    }

    /** Whether a write takes effect, and how the call ends; a normal return means it did. */
    method Attempt() returns (durable: bool, status: Status)
      ensures status.Ok? ==> durable
      ensures reliable ==> status.Ok?
    {
      status := Touch();
      durable := *;
      if status.Ok? {
        durable := true;
      }
    }

    method ReadSecret() returns (status: Status, snapshot: Snapshot)
      ensures status.Ok? ==> snapshot == SnapshotOf(secret) && |snapshot.content| <= MAX_SECRET_FILE_BYTES
      ensures reliable && |SnapshotOf(secret).content| <= MAX_SECRET_FILE_BYTES ==> status.Ok?
    {
      snapshot := SnapshotOf(secret);
      status := Touch();
      if status.Ok? && |snapshot.content| > MAX_SECRET_FILE_BYTES {
        status := Raised;
      }
    }

    /** Write the exact bytes of a snapshot, or delete the file when it did not exist. */
    method RestoreSecret(snapshot: Snapshot) returns (status: Status)
      modifies this`secret
      ensures secret == old(secret)
           || (secret == FileOf(snapshot) && |snapshot.content| <= MAX_SECRET_FILE_BYTES)
      ensures status.Ok? ==> secret == FileOf(snapshot)
      ensures reliable ==> status == if |snapshot.content| <= MAX_SECRET_FILE_BYTES then Ok else Raised
    {
      if |snapshot.content| > MAX_SECRET_FILE_BYTES {
        return Raised;
      }
      var durable;
      durable, status := Attempt();
      if durable {
        secret := FileOf(snapshot);
      }
    }

    method ReadConfig() returns (status: Status, document: Config)
      ensures status.Ok? ==> document == config
      ensures reliable ==> status.Ok?
    {
      document := config;
      status := Touch();
    }

    /** Replace the configuration document by one atomic rename. */
    method WriteConfig(document: Config) returns (status: Status)
      modifies this`config
      ensures config == old(config) || config == document
      ensures status.Ok? ==> config == document
      ensures reliable ==> status.Ok?
    {
      var durable;
      durable, status := Attempt();
      if durable {
        config := document;
      }
    }

    method UpdateSource(service: Service, source: Option<Source>) returns (status: Status)
      modifies this`config
      ensures config == old(config) || config == WithSource(old(config), service, source)
      ensures status.Ok? ==> config == WithSource(old(config), service, source)
      ensures reliable ==> status.Ok?
    {
      var current :- ReadConfig();
      status := WriteConfig(WithSource(current, service, source));
    }

    method UpdateDefaultModel(model: Option<Model>) returns (status: Status)
      modifies this`config
      ensures config == old(config) || config == WithDefaultModel(old(config), model)
      ensures status.Ok? ==> config == WithDefaultModel(old(config), model)
      ensures reliable ==> status.Ok?
    {
      var current :- ReadConfig();
      status := WriteConfig(WithDefaultModel(current, model));
    }
  }
}
