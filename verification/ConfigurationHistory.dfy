/**
 Any history of credential changes, model changes and restarts over one user's files.
 Whatever fails, the files always lead to the fold of the changes that committed.
 */
module ConfigurationHistory {
  import opened Outcomes
  import opened UserState
  import opened ProviderConfiguration
  import Credential = CredentialTransaction
  import ModelTx = ModelTransaction

  /** All that changes of either kind may move. */
  datatype Stores = Stores(secret: Option<Bytes>, config: Config, threads: ModelTx.Threads)

  datatype Change =
    | CredentialChange(request: CredentialRequest, plan: Plan)
    | ModelChange(threadId: string, model: Model, transactionId: string)

  /** What a change makes of the stores when it commits. */
  function Applied(stores: Stores, change: Change): Stores {
    match change
    case CredentialChange(request, plan) =>
      if plan.PlanContent? then
        Stores(
          Some(plan.content),
          WithSource(
            stores.config, request.service, TargetSource(request, stores.config.credentials.Get(request.service))),
          stores.threads)
      else stores
    case ModelChange(threadId, model, _) =>
      Stores(
        stores.secret, WithDefaultModel(stores.config, Some(model)),
        if threadId in stores.threads then stores.threads[threadId := Some(model)] else stores.threads)
  }

  function CredentialEndsOf(base: Stores, request: CredentialRequest, plan: Plan): Credential.Endpoints {
    Credential.Endpoints(
      request.service, base.secret, if plan.PlanContent? then Some(plan.content) else base.secret,
      base.config, TargetSource(request, base.config.credentials.Get(request.service)))
  }

  function ModelEndsOf(base: Stores, threadId: string, model: Model): ModelTx.ModelEndpoints {
    ModelTx.ModelEndpoints(threadId, base.config, base.threads, model)
  }

  /** The one change that may be unfinished, and the stores before it. */
  datatype Pending = Quiet | Unfinished(base: Stores, change: Change)

  /** The files and the services of one user, over any number of processes one after the other. */
  class History {
    const files: UserFiles
    const threads: ModelTx.ThreadStore
    var service: ProviderConfigurationService
    ghost var goal: Stores
    ghost var pending: Pending

    /** Nothing is unfinished, and the stores are at the goal. */
    ghost predicate AtGoal()
      reads this, files, threads
    {
      && files.secret == goal.secret && files.config == goal.config && threads.committed == goal.threads
      && |SnapshotOf(files.secret).content| <= MAX_SECRET_FILE_BYTES
      && Credential.Clean(files) && files.modelJournal.None?
      && !files.credentialCommitted && !files.modelCommitted
    }

    /** Recovery can finish the unfinished change, and finishing it leads to the goal. */
    ghost predicate LeadsToGoal(base: Stores, change: Change)
      reads this, files, threads
    {
      match change
      case CredentialChange(request, plan) =>
        && Credential.Recoverable(files, CredentialEndsOf(base, request, plan))
        && files.modelJournal.None? && !files.modelCommitted && threads.committed == base.threads
        && (files.credentialCommitted ==> plan.PlanContent?)
        && goal == if files.credentialCommitted then Applied(base, change) else base
      case ModelChange(threadId, model, _) =>
        && Credential.Clean(files) && !files.credentialCommitted
        && files.secret == base.secret && |SnapshotOf(files.secret).content| <= MAX_SECRET_FILE_BYTES
        && ModelTx.Recoverable(files, threads, ModelEndsOf(base, threadId, model))
        && goal == if files.modelCommitted then Applied(base, change) else base
    }

    /** The files lead to the goal, though a change that is over may not have been settled. */
    ghost predicate Leads()
      reads this, service, files, threads
    {
      && service.Valid() && service.files == files && service.threads == threads && threads.files == files
      && match pending
         case Quiet => AtGoal()
         case Unfinished(base, change) => LeadsToGoal(base, change)
    }

    /** Nothing that recovery would have to do is left. */
    predicate IsOver()
      reads files
    {
      Credential.Clean(files) && files.modelJournal.None?
    }

    ghost predicate Valid()
      reads this, service, files, threads
    {
      Leads() && (pending.Quiet? <==> IsOver())
    }

    /** At no time is more than one journal present. */
    lemma OneJournal()
      requires Valid()
      ensures files.credentialJournal.None? || files.modelJournal.None?
    {
    }

    constructor (secret: Option<Bytes>, config: Config, threadTable: ModelTx.Threads)
      requires |SnapshotOf(secret).content| <= MAX_SECRET_FILE_BYTES
      ensures Valid() && goal == Stores(secret, config, threadTable)
      ensures fresh(files) && fresh(threads) && fresh(service)
    {
      var userFiles := new UserFiles(secret, config);
      var store := new ModelTx.ThreadStore(userFiles, threadTable);
      files, threads := userFiles, store;
      service := new ProviderConfigurationService(userFiles, store);
      goal, pending := Stores(secret, config, threadTable), Quiet;
    }

    /** Once its journal and its backup are gone, an unfinished change is over and a new history starts. */
    ghost method Settle()
      requires Leads()
      modifies this`pending, files`credentialCommitted, files`modelCommitted
      ensures Valid() && (pending.Quiet? || pending == old(pending))
    {
      if IsOver() {
        pending := Quiet;
        files.credentialCommitted, files.modelCommitted := false, false;
      }
    }

    method ChangeCredential(request: CredentialRequest, plan: Plan)
      returns (report: Report, ghost committed: bool)
      requires Valid() && (plan.PlanUnchanged? ==> request.action.Delete?)
      modifies this`goal, this`pending, service`recoveryRequired, files
      ensures Valid()
      ensures goal == if committed then Applied(old(goal), CredentialChange(request, plan)) else old(goal)
      ensures report.Returned? ==> (committed <==> plan.PlanContent?)
      ensures report.RaisedOriginal? ==> !committed
      ensures old(pending.Unfinished?) ==> !report.Returned? && !committed
    {
      files.reliable := false;
      committed := false;
      ghost var ends := CredentialEndpoints(files, request, plan);
      report := service.PersistCredentialTransaction(request, plan);
      if pending.Quiet? {
        committed := files.credentialCommitted;
        pending := Unfinished(goal, CredentialChange(request, plan));
        if committed {
          goal := Applied(goal, CredentialChange(request, plan));
        }
        Settle();
      }
    }

    method ChangeModel(threadId: string, model: Model, transactionId: string)
      returns (report: Report, ghost committed: bool)
      requires Valid() && threadId in goal.threads
      modifies this`goal, this`pending, service`recoveryRequired, files, threads
      ensures Valid()
      ensures goal == if committed then Applied(old(goal), ModelChange(threadId, model, transactionId)) else old(goal)
      ensures report.Returned? ==> committed
      ensures report.RaisedOriginal? ==> !committed
      ensures old(pending.Unfinished?) ==> !report.Returned? && !committed
    {
      files.reliable := false;
      committed := false;
      ghost var ends := ModelTx.ModelEndpoints(threadId, files.config, threads.committed, model);
      ghost var prepareDurable, rollbackRaised;
      report, prepareDurable, rollbackRaised :=
        service.PersistModelAndFinalize(threadId, model, transactionId, ends);
      if pending.Quiet? {
        committed := files.modelCommitted;
        pending := Unfinished(goal, ModelChange(threadId, model, transactionId));
        if committed {
          goal := Applied(goal, ModelChange(threadId, model, transactionId));
        }
        Settle();
      }
    }

    /** A new process: reconcile the credential change first and the model change after it. */
    method Restart(reliable: bool) returns (status: Status)
      requires Valid()
      modifies this`service, this`pending, files, threads
      ensures Valid() && goal == old(goal) && fresh(service)
      ensures reliable ==> status.Ok?
      ensures status.Ok? ==> AtGoal()
    {
      files.reliable := reliable;
      service := new ProviderConfigurationService(files, threads);
      status := RecoverCredential();
      if status.Ok? {
        status := RecoverModel();
      }
    }

    method RecoverCredential() returns (status: Status)
      requires Valid()
      modifies this`pending, files`secret, files`config, files`credentialJournal, files`credentialBackup,
               files`credentialCommitted, files`modelCommitted
      ensures Valid()
      ensures files.reliable ==> status.Ok?
      ensures status.Ok? ==> Credential.Clean(files)
      ensures status.Ok? && pending.Unfinished? ==> pending.change.ModelChange?
    {
      var journal := new Credential.ProviderCredentialTransactionJournal(files);
      ghost var ends :=
        if pending.Unfinished? && pending.change.CredentialChange?
        then CredentialEndsOf(pending.base, pending.change.request, pending.change.plan)
        else CredentialEndsOf(goal, CredentialRequest(DeepSeek, Delete), PlanFails);
      var reconciled;
      status, reconciled := Credential.ReconcileProviderCredentialTransaction(journal, ends);
      Settle();
    }

    method RecoverModel() returns (status: Status)
      requires Valid() && Credential.Clean(files)
      requires pending.Unfinished? ==> pending.change.ModelChange?
      modifies this`pending, files`config, files`modelJournal, files`credentialCommitted, files`modelCommitted, threads
      ensures Valid()
      ensures files.reliable ==> status.Ok?
      ensures status.Ok? ==> AtGoal()
    {
      var journal := new ModelTx.ProviderModelTransactionJournal(files);
      ghost var ends :=
        if pending.Unfinished? then ModelEndsOf(pending.base, pending.change.threadId, pending.change.model)
        else ModelEndsOf(goal, "", "");
      var changed;
      status, changed := ModelTx.ReconcileProviderModelTransaction(journal, threads, ends);
      Settle();
    }
  }

  datatype Turn =
    | Request(change: Change)
    | RestartProcess

  /** The changes that committed, one after the other. */
  function Fold(initial: Stores, turns: seq<Turn>, committed: seq<bool>): Stores
    requires |turns| == |committed|
  {
    if turns == [] then initial
    else
      var before := Fold(initial, turns[..|turns| - 1], committed[..|turns| - 1]);
      var last := turns[|turns| - 1];
      if last.Request? && committed[|turns| - 1] then Applied(before, last.change) else before
  }

  lemma FoldNext(initial: Stores, turns: seq<Turn>, i: nat, committed: seq<bool>, next: bool)
    requires i < |turns| && |committed| == i
    ensures Fold(initial, turns[..i + 1], committed + [next])
         == if turns[i].Request? && next then Applied(Fold(initial, turns[..i], committed), turns[i].change)
            else Fold(initial, turns[..i], committed)
  {
    assert turns[..i + 1][..i] == turns[..i] && (committed + [next])[..i] == committed;
  }

  /** What the source asks of a request: a deletion only may plan nothing, and a thread must exist. */
  predicate IsRequest(turn: Turn, threadIds: set<string>) {
    match turn
    case Request(CredentialChange(request, plan)) => plan.PlanUnchanged? ==> request.action.Delete?
    case Request(ModelChange(threadId, _, _)) => threadId in threadIds
    case RestartProcess => true
  }

  /** A report says truly whether its change committed. */
  predicate IsTrue(turn: Turn, report: Report, committed: bool) {
    match turn
    case RestartProcess => !committed
    case Request(change) =>
      && (report.Returned? ==> (committed <==> change.ModelChange? || change.plan.PlanContent?))
      && (report.RaisedOriginal? ==> !committed)
  }

  method TakeTurn(history: History, turn: Turn) returns (report: Report, ghost committed: bool)
    requires history.Valid() && IsRequest(turn, history.goal.threads.Keys)
    modifies history, history.service, history.files, history.threads
    ensures history.Valid() && (history.service == old(history.service) || fresh(history.service))
    ensures history.goal
         == if turn.Request? && committed then Applied(old(history.goal), turn.change) else old(history.goal)
    ensures history.goal.threads.Keys == old(history.goal.threads.Keys)
    ensures IsTrue(turn, report, committed)
  {
    hide History.Valid;
    match turn
    case Request(CredentialChange(request, plan)) =>
      report, committed := history.ChangeCredential(request, plan);
    case Request(ModelChange(threadId, model, transactionId)) =>
      report, committed := history.ChangeModel(threadId, model, transactionId);
    case RestartProcess =>
      var status := history.Restart(false);
      report, committed := if status.Ok? then Returned else Died, false;
  }

  /**
   Any sequence of changes and restarts, every one failing or dying anywhere. After each
   turn at most one journal is pending, and one restart in which nothing fails ends at
   exactly the changes that committed, in order, with neither journal nor backup left. A
   change that returned has committed and one that raised its own error has not.
   */
  method AnyHistory(
    secret: Option<Bytes>, config: Config, threadTable: ModelTx.Threads, turns: seq<Turn>)
    returns (reports: seq<Report>, twoJournals: bool, finalStores: Stores, clean: bool, ghost committed: seq<bool>)
    requires |SnapshotOf(secret).content| <= MAX_SECRET_FILE_BYTES
    requires forall turn :: turn in turns ==> IsRequest(turn, threadTable.Keys)
    ensures |reports| == |committed| == |turns|
    ensures finalStores == Fold(Stores(secret, config, threadTable), turns, committed) && clean
    ensures forall i :: 0 <= i < |turns| ==> IsTrue(turns[i], reports[i], committed[i])
    ensures !twoJournals
  {
    hide History.Valid, IsTrue, Fold, Applied, IsRequest;
    var history := new History(secret, config, threadTable);
    reports, twoJournals, committed := RunTurns(history, turns);
    finalStores, clean := LastRestart(history);
  }

  method RunTurns(history: History, turns: seq<Turn>)
    returns (reports: seq<Report>, twoJournals: bool, ghost committed: seq<bool>)
    requires history.Valid()
    requires forall turn :: turn in turns ==> IsRequest(turn, history.goal.threads.Keys)
    modifies history, history.service, history.files, history.threads
    ensures history.Valid() && (history.service == old(history.service) || fresh(history.service))
    ensures |reports| == |committed| == |turns|
    ensures history.goal == Fold(old(history.goal), turns, committed)
    ensures forall i :: 0 <= i < |turns| ==> IsTrue(turns[i], reports[i], committed[i])
    ensures !twoJournals
  {
    ghost var initial := history.goal;
    reports, committed, twoJournals := [], [], false;
    assert turns[..0] == [] && Fold(initial, [], []) == initial;
    hide History.Valid, IsTrue, Fold, Applied, IsRequest;
    var i := 0;
    while i < |turns|
      invariant i <= |turns| && |reports| == |committed| == i && !twoJournals
      invariant history.Valid() && history.goal == Fold(initial, turns[..i], committed)
      invariant history.goal.threads.Keys == initial.threads.Keys
      invariant history.service == old(history.service) || fresh(history.service)
      invariant forall k :: 0 <= k < i ==> IsTrue(turns[k], reports[k], committed[k])
    {
      var report;
      ghost var done;
      report, done := TakeTurn(history, turns[i]);
      history.OneJournal();
      twoJournals := history.files.credentialJournal.Some? && history.files.modelJournal.Some?;
      FoldNext(initial, turns, i, committed, done);
      reports, committed := reports + [report], committed + [done];
      i := i + 1;
    }
    assert turns[..i] == turns;
  }

  method LastRestart(history: History) returns (finalStores: Stores, clean: bool)
    requires history.Valid()
    modifies history, history.files, history.threads
    ensures clean && finalStores == old(history.goal)
  {
    hide History.Valid;
    var status := history.Restart(true);
    var files := history.files;
    finalStores := Stores(files.secret, files.config, history.threads.committed);
    clean := files.credentialJournal.None? && files.credentialBackup.None? && files.modelJournal.None?;
  }
}
