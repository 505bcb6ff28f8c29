# Verified model of Awesome Agent's crash safety and agent loop

Awesome Agent runs a tool-using language-model agent for one workspace. Its hard parts
are protocols: a configuration change that spans stores which cannot commit together,
an agent loop whose checkpoints another file must accept, an operation that may be
cancelled while it commits, a log that survives a crash in the middle of a line. This
project states those protocols in Dafny and proves what they promise over every run.

`dafny verify dfyconfig.toml` checks everything.

## What is modelled

**Credential and model changes** (`UserState`, `CredentialTransaction`,
`ModelTransaction`, `ProviderConfiguration`, `ConfigurationRuns`,
`ConfigurationHistory`). A credential change writes the secret file and the configuration document; a model change writes the
document and the thread table in SQLite. A phased journal and a backup make each
atomic. The classes hold the durable files as fields. Every write either happens or
does not, and then returns, raises or loses the process, all chosen freely; while
`reliable` holds no step fails but the ones named in `failing`, which take effect and raise. Recovery is under the
same faults as the change.
`Recoverable` is the set of durable states a crash may leave, and every method of both
transactions keeps it. `CredentialCrashAtomicity`, `ModelCrashAtomicity` and
`RunTwoProcesses` are drivers that run a change, any number of interrupted recoveries
and a last undisturbed one, or any schedule of two processes; `AnyHistory` runs any
sequence of changes of both kinds and restarts. Their contracts are the safety statements.

**The agent loop** (`AgentState`, `AgentTail`, `AgentNodes`, `AgentRuns`,
`AgentTheorems`, `AgentWitnesses`, `AgentStepLimit`, `AgentAnswers`). The nodes are functions of the
state and of an answer from the outside world (gateway, tool executor, compressor, context builder, finalizer), and
`Allowed` is what each of those promises. `AgentTail` holds the checker of a
checkpoint's message tail; it re-derives call/result pairing from raw
messages. Its loop is proved equal to `TailIsValid`, and `TailIsValid` to the existence
of a well-formed history. `AgentRuns.Invariant` ties the graph's states to such a
history, so the two files agree on every run. `Resumable` is the tail check with the
token check that resuming adds. `AgentWitnesses` holds runs that reach the
states in which the loop and those checks part, `AgentStepLimit` the longest runs, and
`AgentAnswers` what each node leaves, of the answers it was given alone.

**Operations** (`Operations`, `OperationControl`). One lease, one active operation,
and a race between a caller's cancel, the operation's own commit, its starter and
shutdown. `Step` is the session as atomic sections between awaits; the classes in
`OperationControl` assign the same fields as the program, each method is proved to be its
step, and `RunController` drives the objects through any events and concludes the
theorems of them.

**The application log** (`DiagnosticLog`, `DiagnosticWriter`). Append with partial
writes, repair of an unfinished line by a chunked backward scan, rotation over numbered
slots with a crash possible between any two renames, and the bounded queue in front.

**Citations** (`Citations`, `SourceList`). Collection over tool results, marker search,
title escaping and the bounded source list.

**Bootstrap** (`Bootstrap`). Readiness, initialize attempts and their tokens, and a driver
of the object over any calls.

**The storage diagnostic** (`StorageDiagnostic`). The line that names an error chain,
and the verifier that reads it from captured output.

## Assumptions

- Replacing or unlinking one file is atomic; SHA-256 has no collisions; the SQLite
  runner takes its write lock first and commits when the closure returns; the locks make
  each locked section one step.
- The change of a secret file's text (`plan_set`, `plan_delete`) is a parameter: it
  fails, changes nothing, or yields new content.
- The gateway's stream is finite; the tool executor echoes the call id; the compressor
  keeps to the retries it was given; a context builder's estimate is the estimate of the
  messages it built; elapsed time is not negative; the token estimate of a list is the
  sum over its messages.
- An operation's starter is cancelled at most once, and is woken before the publication
  its task starts has finished.
- The log keeps one file count and one size bound over all sessions. An encoded
  observation ends with its only newline.
- In the storage diagnostic, the tables of message and class tokens are parameters whose
  entries are at most 100 characters without `>` or line breaks and do not start like an
  OS error's token; the shipped tables are. An integer other than a Boolean prints as its
  decimal.
- The graph library takes one step for each node it runs, and no more than the limit it is
  given.
- `PlainUrl` stands for the URL validator on URLs with a plain host; the URL parsers
  themselves are not part of this model.

## Findings

- `docs/architecture/application-and-agent.md` (line 235) and
  `docs/architecture/context-model-and-extensions.md` (line 123) promise that compression
  keeps the active tool tail. `call_model` drops a finished batch from the pending calls
  before it can report an overflow, so the tail no longer passes its own check:
  compression completes only while no turn is recorded, and otherwise ends the turn as
  unrecoverable (`CompressionNeverKeepsAToolTail`). A call, its result and an overflow are
  enough to get there (`OverflowLosesTail`).
- After `call_model` a checkpoint does not always pass the tail check. `CheckpointAfterModelCall`
  gives the exact condition; `OverflowCheckpointIsRejected` and
  `ReservedCallCheckpointIsRejected` are runs into both failing cases.
- Before a model call or a tool every checkpoint passes the tail check, but resuming also
  asks that the recorded tokens are within the limit, and a tool result is added without
  looking at it. Such a checkpoint may be resumed if and only if its tokens are within the
  limit (`LoopCheckpointsResume`, `ResumableAfterModelCall`); `OverrunCheckpointIsRefused`
  is a run into one that may not.
- The graph always ends with a termination reason (`GraphTerminates`), but the application
  runs it with a limit of 2,048 steps (`src/awesome_agent/application/turns.py`, line 855),
  and every tool call of a turn is a step, also one that is refused. `LongestRun` is the
  longest run when no turn carries more than so many calls. The limit is enough if that
  fits, and only if it fits unless the budget has fewer tool calls than turns before the
  reserved one (`RecursionLimitSuffices`); with the default budget, exactly while no turn
  carries 1,950 calls (`DefaultBudgetSuffices`). `SomeRunIsCutOff` builds a run that is cut
  off.
- An operation cancelled while STARTING keeps its lease for good unless its starter was
  cancelled too (`CancelWhileStartingAbandonsLease`, `AbandonedForever`, and the
  equivalences in `EndedExactlyOnce`). `SomeLeaseIsAbandoned` is a run of seven events.
- An operation cancelled after its task is created and before that task's first step never
  begins: its starter waits for a signal that nobody gives, no terminal event is published,
  and the lease is kept until the starter itself is cancelled
  (`CancelBeforeFirstStepStrands`, `StrandedUntilStarterCancelled`; `SomeStarterIsStranded`
  is a run of five events). So a cancel that returned True is published exactly in the
  cases that `WhenCancelIsPublished` lists.
- A model change can raise the error of the SQLite rollback and leave its journal behind,
  with both stores at the previous state and the service fenced. It does so if and only if
  writing the PREPARED record became durable although it raised, and the rollback raised
  too (`PersistModelAndFinalize`, `ModelCrashAtomicity`). `ReraiseWithPendingJournal` is
  such a run.
- The appended source list can cite sources it does not list: URLs are not escaped, and
  the citation validator accepts `[[S9]]` in a query. The list cites each id followed by
  the markers of its URL, so exactly its own ids if and only if no listed URL contains a
  marker (`ListCitesWhatItLists`; `UrlCanForgeMarker` has the failing input).
- An uncited answer that leaves some room, but less than one marker needs, gets a cut
  marker and still cites nothing. `ValidateAnswerCitations` states that this is the only
  such case, and `CrampedAnswerStaysUncited` has one.
- One rotation that stops between two renames is enough to lose a log slot early: it leaves
  a gap, and the next rotation drops the oldest slot although another older one stands
  empty (`StoppedRotationLosesEarly`). A rotation leaves every older slot full if and only
  if none but the oldest stood empty before it (`FullAfterRotation`, `WriteLine`). Over any
  run all but one slot's bytes stay unless some turn drops a slot while another older one
  stands empty, and that takes a rotation stopped between two renames; at least one full
  slot's bytes always stay (`LogSessions`).
- The storage diagnostic prints `os_error_True` for an `OSError` whose number is a Boolean,
  and the verifier refuses that token. It takes every produced line if and only if no
  exception named in it has such a number (`ProducedLineIsAccepted`;
  `BooleanErrnoIsRefused` has the shortest one).

## Model

| member | source | states |
|---|---|---|
| UserState.UserFiles.RestoreSecret | src/awesome_agent/application/provider_configuration.py:1188-1197 | a secret file is replaced whole by the snapshot, or is unchanged, whatever fails |
| UserState.UserFiles.UpdateSource | src/awesome_agent/application/provider_configuration.py:1383-1395 | the document changes in one service's source or not at all |
| UserState.UserFiles.UpdateDefaultModel | src/awesome_agent/config/writer.py:20-33 | the document changes in its default model or not at all |
| CredentialTransaction.SourceRoundTrip | src/awesome_agent/application/provider_configuration.py:1383-1395 | writing back the previous source restores the exact document; no other service's source moves |
| CredentialTransaction.RecordIdentifiesFiles | src/awesome_agent/config/credential_transaction.py:66-88 | a record's existence bit and digest accept exactly the previous (target) file |
| CredentialTransaction.ProviderCredentialTransactionJournal.StageBackup | src/awesome_agent/config/credential_transaction.py:117-136 | only a clean journal stages, and the backup is the exact previous content or absent |
| CredentialTransaction.ProviderCredentialTransactionJournal.Prepare | src/awesome_agent/config/credential_transaction.py:138-150 | only a PREPARED record beside a matching backup becomes durable |
| CredentialTransaction.ProviderCredentialTransactionJournal.Advance | src/awesome_agent/config/credential_transaction.py:152-175 | a record advances one phase, over exactly the record it expects |
| CredentialTransaction.ProviderCredentialTransactionJournal.ReadBackup | src/awesome_agent/config/credential_transaction.py:177-196 | what is returned is the exact previous snapshot, verified by digest |
| CredentialTransaction.ProviderCredentialTransactionJournal.Clear | src/awesome_agent/config/credential_transaction.py:198-216 | a crash inside leaves a state that recovery still finishes |
| CredentialTransaction.ProviderCredentialTransactionJournal.ClearOrphanBackup | src/awesome_agent/config/credential_transaction.py:218-230 | a backup without a journal is removed, and only then |
| CredentialTransaction.VerifyCredentialTransactionState | src/awesome_agent/application/provider_configuration.py:1397-1416 | success means source and secret file are both at the endpoint the record names |
| CredentialTransaction.ReconcileProviderCredentialTransaction | src/awesome_agent/application/provider_configuration.py:288-335 | recovery keeps every recoverable state recoverable whatever fails, finishes when nothing does, at the target if and only if COMMITTED was durable, and refuses a foreign secret file untouched |
| ProviderConfiguration.ProviderConfigurationService.CommitSecretFile | src/awesome_agent/application/provider_configuration.py:1186-1200 | from a clean state to a durable SECRET_COMMITTED record over the target file, never losing the previous content |
| ProviderConfiguration.ProviderConfigurationService.AdvanceCredentialChange | src/awesome_agent/application/provider_configuration.py:1184-1214 | every prefix of the change is recoverable; success means committed and clean; when only named steps fail, COMMITTED is durable exactly if none before it does |
| ProviderConfiguration.ProviderConfigurationService.RecoverCredentialChange | src/awesome_agent/application/provider_configuration.py:1215-1243 | the reported result agrees with the durable state, and anything else fences; when no step of the recovery fails, it recovers: the target if COMMITTED was durable and the previous pair otherwise, clean and unfenced |
| ProviderConfiguration.ProviderConfigurationService.PersistCredentialTransaction | src/awesome_agent/application/provider_configuration.py:1143-1243 | returns only at the target or for a deletion without effect, re-raises only at the previous pair, fences otherwise; a pending change of either kind, or a fence, refuses it untouched; when only named steps fail its report is certain and nothing is left behind |
| ConfigurationRuns.CredentialCrashAtomicity | src/awesome_agent/application/provider_configuration.py:288-335 | crash anywhere, any number of recoveries crashing anywhere, one that does not: exactly one endpoint, no journal, no backup, and the target if and only if COMMITTED was durable |
| ConfigurationRuns.RecoverCredential | src/awesome_agent/application/provider_configuration.py:288-335 | any number of interrupted recoveries and one that is not reach exactly the selected endpoint |
| ModelTransaction.ProviderModelTransactionJournal.Prepare | src/awesome_agent/config/model_transaction.py:133-144 | a PREPARED record is written only over no record |
| ModelTransaction.ProviderModelTransactionJournal.MarkCommitted | src/awesome_agent/config/model_transaction.py:146-160 | COMMITTED replaces exactly the PREPARED record it expects |
| ModelTransaction.ProviderModelTransactionJournal.Clear | src/awesome_agent/config/model_transaction.py:162-180 | a journal is cleared only for the record it holds |
| ModelTransaction.VerifyModelTransactionState | src/awesome_agent/application/provider_configuration.py:1361-1380 | success means both stores hold the record's values for the chosen endpoint |
| ModelTransaction.ReconcileTransaction | src/awesome_agent/application/provider_configuration.py:176-226 | the first recovery transaction reaches the endpoint the record selects, moves only the default model and the one thread, and never touches the journal |
| ModelTransaction.EndpointMaps | src/awesome_agent/application/provider_configuration.py:189-214 | setting the wanted default and thread model from any state recovery meets gives exactly an endpoint |
| ModelTransaction.VerifiedStateIsEndpoint | src/awesome_agent/application/provider_configuration.py:228-253 | what the verification accepts is one of the two endpoints, in every other field too |
| ModelTransaction.FinalizeTransaction | src/awesome_agent/application/provider_configuration.py:228-280 | the journal is cleared only once the endpoint is committed in SQLite |
| ModelTransaction.ReconcileProviderModelTransaction | src/awesome_agent/application/provider_configuration.py:155-285 | both recovery transactions together, under faults anywhere between them; a document or thread table edited elsewhere since the crash keeps every other change |
| ProviderConfiguration.ProviderConfigurationService.RestoreModelChange | src/awesome_agent/application/provider_configuration.py:1245-1286 | both stores go back to the previous values before the journal is cleared; it succeeds when nothing in it fails |
| ProviderConfiguration.ProviderConfigurationService.PersistModel | src/awesome_agent/application/provider_configuration.py:586-674 | the SQLite closure of a model change: committed, rolled back or recoverable, as reported |
| ProviderConfiguration.ProviderConfigurationService.PersistPrepared | src/awesome_agent/application/provider_configuration.py:622-674 | from a durable PREPARED record: committed at the target, rolled back, or recoverable and fenced; a failing write of either store rolls it back |
| ProviderConfiguration.ProviderConfigurationService.PersistModelTransaction | src/awesome_agent/application/provider_configuration.py:901-940 | the same with the SQLite commit or rollback, each of which may raise, and exactly when a raised error leaves a journal |
| ProviderConfiguration.ProviderConfigurationService.ResolveModelTransactionBoundary | src/awesome_agent/application/provider_configuration.py:992-1053 | an unknown commit outcome is resolved to the endpoint the durable record names, or fenced |
| ProviderConfiguration.ProviderConfigurationService.FinalizeModelTransaction | src/awesome_agent/application/provider_configuration.py:676-703 | success means both stores at the target and no journal; a rolled-back change reports its original error |
| ProviderConfiguration.ProviderConfigurationService.PersistModelAndFinalize | src/awesome_agent/application/provider_configuration.py:886-956 | success only with both stores at the target and no journal; re-raising only with both at the previous state, and with a journal left exactly when preparing was durable though it raised and the rollback raised; a pending change of either kind, or a fence, is refused untouched; each named failing step has its certain report |
| ProviderConfiguration.TargetModelsAreTarget | src/awesome_agent/application/provider_configuration.py:1011-1045 | a document or thread table that already holds the target model is the whole target document or table |
| ConfigurationRuns.ModelCrashAtomicity | src/awesome_agent/application/provider_configuration.py:155-285 | as for credentials, across YAML and SQLite and between the two recovery transactions; no other field changes; a re-raised error always means the previous state, and leaves a journal under its exact condition |
| ConfigurationRuns.ReraiseWithPendingJournal | src/awesome_agent/application/provider_configuration.py:600-621 | one run re-raises with its journal pending and the service fenced |
| ConfigurationRuns.CredentialFailureIsHandled | src/awesome_agent/application/provider_configuration.py:1184-1243 | whichever steps are made to fail, a credential change is undone whole if one of them comes before COMMITTED or the new file is too large, and done whole otherwise; clean and unfenced |
| ConfigurationRuns.ModelFailureIsHandled | src/awesome_agent/application/provider_configuration.py:586-703 | a failing write of either store undoes a model change whole, without a journal or a fence; for the failing journal write and rollback, exactly what is reported |
| ConfigurationRuns.RecoverModel | src/awesome_agent/application/provider_configuration.py:155-285 | the same for both model stores |
| ConfigurationRuns.TwoProcesses.constructor | src/awesome_agent/application/provider_configuration.py:586-674 | after the first process's transaction, under any failure, the two-process invariant holds |
| ConfigurationRuns.TwoProcesses.PeerReconciles | src/awesome_agent/application/provider_configuration.py:176-226 | a second process's reconciliation leaves the selected endpoint |
| ConfigurationRuns.TwoProcesses.PeerFinalizes | src/awesome_agent/application/provider_configuration.py:228-253 | and its finalization keeps it, or fails without moving it |
| ConfigurationRuns.TwoProcesses.FirstContinues | src/awesome_agent/application/provider_configuration.py:958-990 | the first process's finalization succeeds although the peer may have cleared the journal |
| ConfigurationRuns.RunTwoProcesses | src/awesome_agent/application/provider_configuration.py:155-285 | any schedule of both processes' sections: same endpoint, and the first still reports its own outcome |
| ConfigurationHistory.History.ChangeCredential | src/awesome_agent/application/provider_configuration.py:1143-1243 | one credential change from any reachable files moves the goal of recovery exactly if it commits, and commits nothing while another change is unfinished |
| ConfigurationHistory.History.ChangeModel | src/awesome_agent/application/provider_configuration.py:886-956 | the same for one model change |
| ConfigurationHistory.History.Restart | src/awesome_agent/application/composition.py:2058-2075 | a new process recovers the credential change, then the model change, and never moves the goal; when nothing fails it reaches it |
| ConfigurationHistory.AnyHistory | src/awesome_agent/application/provider_configuration.py:155-335 | over any changes, failures, crashes and restarts at most one journal is pending, and an undisturbed restart ends at the fold of exactly the changes that committed, which every report tells truly |
| AgentState.EstimateConcat | src/awesome_agent/application/context.py:745-747 | estimates add over concatenation |
| AgentTail.ScanIsSound | src/awesome_agent/application/context.py:985-1012 | whatever the checker's scan accepts is a well-formed history |
| AgentTail.ScanIsComplete | src/awesome_agent/application/context.py:985-1012 | and every well-formed history is accepted |
| AgentTail.AcceptedExactlyShapes | src/awesome_agent/application/context.py:969-1027 | a tail is valid if and only if some history renders to it: each call answered once, in order, before the next turn, ids never repeated, `next_tool_index` counting the answers of the last batch |
| AgentTail.HistoryIsUnique | src/awesome_agent/application/context.py:969-1027 | and that history is determined by the messages |
| AgentTail.AddCallIds | src/awesome_agent/application/context.py:996-999 | the ids are new and distinct, or the message is refused |
| AgentTail.CheckMessage | src/awesome_agent/application/context.py:990-1007 | one iteration of the checker is one step of the scan |
| AgentTail.ResultsAgree | src/awesome_agent/application/context.py:1013-1027 | recorded results and observed messages agree one by one |
| AgentTail.FrozenMessageTailIsValid | src/awesome_agent/application/context.py:969-1027 | the checker's loop computes exactly `TailIsValid` |
| AgentNodes.ConsumeStream | src/awesome_agent/agent/nodes.py:216-247 | the loop over stream events charges and ends exactly as its specification |
| AgentRuns.ReadEventsKeepsBudget | src/awesome_agent/agent/nodes.py:216-247 | in-stream retries never pass the retry or the model-call budget, for any stream |
| AgentRuns.SeenIdsAreAnswered | src/awesome_agent/agent/nodes.py:537-554 | when a call is made, the ids used so far are exactly those with results |
| AgentRuns.FreshCallsOpenBatch | src/awesome_agent/agent/nodes.py:537-554 | so calls fresh against the results are fresh against the whole history |
| AgentRuns.CompressStep | src/awesome_agent/agent/nodes.py:85-159 | compression keeps the invariant and, charged, leaves a model call |
| AgentRuns.CallStep | src/awesome_agent/agent/nodes.py:162-302 | a model call keeps the invariant and records at most one turn |
| AgentRuns.ToolStep | src/awesome_agent/agent/nodes.py:305-380 | running a tool answers exactly the next pending call |
| AgentRuns.FinalizeStep | src/awesome_agent/agent/nodes.py:383-478 | finalization ends with a termination reason and within budget |
| AgentRuns.StepKeepsInvariant | src/awesome_agent/agent/graph.py:36-67 | every node and edge keeps the invariant |
| AgentRuns.RunKeepsInvariant | src/awesome_agent/agent/graph.py:36-67 | so does every run |
| AgentTheorems.CountersStayWithinBudget | src/awesome_agent/agent/budgets.py:30-108 | model calls, tool calls, retries and compressions stay within budget in every reachable state |
| AgentTheorems.TokensAreConserved | src/awesome_agent/agent/nodes.py:375-378 | the recorded estimate equals the estimate of all messages in every reachable state |
| AgentTheorems.LoopCheckpointsAreAccepted | src/awesome_agent/application/context.py:969-1027 | every checkpoint before a model call or a tool passes the tail check |
| AgentTheorems.PreparedCheckpointIsAccepted | src/awesome_agent/agent/nodes.py:59-82 | so does the one after preparing |
| AgentTheorems.LoopCheckpointsResume | src/awesome_agent/application/context.py:762-891 | before a model call or a tool, tail check, token sum and token limit together hold if and only if the recorded tokens are within the limit |
| AgentTheorems.PreparedCheckpointResumes | src/awesome_agent/application/context.py:762-891 | and so after preparing |
| AgentTheorems.CheckpointAfterModelCall | src/awesome_agent/agent/nodes.py:168-302 | after a model call, exactly when the checkpoint passes the tail check |
| AgentTheorems.ResumableAfterModelCall | src/awesome_agent/application/context.py:762-891 | and when it may be resumed: exactly if it also is within the token limit |
| AgentTheorems.CallEndings | src/awesome_agent/agent/nodes.py:285-302 | an exit without a turn records nothing; a turn leaves its calls pending unless it was the reserved answer; the answer is in `AgentAnswers` |
| AgentTheorems.AppendedTailIsConserved | src/awesome_agent/application/context.py:741-759 | for every tail, a rebuilt context with the tail appended keeps the messages and counts their tokens exactly, and is refused if and only if they exceed the limit |
| AgentTheorems.CompressionNeverKeepsAToolTail | src/awesome_agent/application/context.py:726-759 | reached through the graph, compression completes only while no turn is recorded |
| AgentTheorems.CompressionLeavesAModelCall | src/awesome_agent/agent/nodes.py:92-128 | a charged compression leaves a model call |
| AgentTheorems.ExhaustionIsStable | src/awesome_agent/agent/budgets.py:67-75 | past a loop limit no later step of any run executes a tool or offers tools |
| AgentTheorems.PendingCallsAreRefused | src/awesome_agent/agent/nodes.py:317-331 | in any run past a loop limit the graph refuses exactly the pending calls, one a step and in order, running none, and then returns to the model |
| AgentTheorems.SomeAnswerIsAllowed | src/awesome_agent/agent/graph.py:36-67 | the outside contracts can be met everywhere |
| AgentTheorems.StepDecreases | src/awesome_agent/agent/graph.py:36-67 | each step decreases model calls left, node rank or unanswered calls, lexicographically |
| AgentTheorems.GraphTerminates | src/awesome_agent/agent/graph.py:36-67 | for every endless supply of answers the graph without a step limit ends after finitely many, with a termination reason; the limit it runs under is in `AgentStepLimit` |
| AgentStepLimit.StepsAreBounded | src/awesome_agent/agent/graph.py:36-67 | a run not ended before its last step has at most as many steps as recorded results, twice the model calls, and four |
| AgentStepLimit.EndsWithinRecursionLimit | src/awesome_agent/application/turns.py:848-858 | so it has ended with a reason by step 2,048 unless those reach it |
| AgentStepLimit.LongestRunBounds | src/awesome_agent/agent/graph.py:36-67 | no run is longer than the model budget, the calls its turns may carry and the tool budget allow |
| AgentStepLimit.SomeRunIsCutOff | src/awesome_agent/application/turns.py:848-858 | where those allow more than 2,048 steps, a run has not ended by then |
| AgentStepLimit.RecursionLimitSuffices | src/awesome_agent/application/turns.py:848-858 | the limit is enough for every run if the longest one fits it, and only if that does unless fewer tool calls are budgeted than turns before the reserved one |
| AgentStepLimit.DefaultBudgetSuffices | src/awesome_agent/agent/budgets.py:10-20 | with 32 model and 64 tool calls, if and only if no turn may carry 1,950 tool calls |
| AgentAnswers.StreamIsRead | src/awesome_agent/agent/nodes.py:216-247 | the stream is read up to the first retry without budget, and everything read is in what it accumulates |
| AgentAnswers.CallAnswers | src/awesome_agent/agent/nodes.py:162-302 | from every reachable call point, the final answer, the reason and the charges a call leaves, and whether it offers tools, of its events alone: the turn's content or else its deltas, the visible text on an exit, the earlier answer otherwise |
| AgentAnswers.ToolRecords | src/awesome_agent/agent/nodes.py:305-380 | from every reachable tool point, the one result recorded and shown: the tool's, an argument error, or a refusal that names the limit |
| AgentAnswers.CompressionOutcome | src/awesome_agent/agent/nodes.py:85-159 | with no turn recorded, when a compression replaces the context, gives it up or leaves it, and exactly what it is charged |
| AgentAnswers.FinalizingKeepsAnswer | src/awesome_agent/agent/nodes.py:383-478 | finalizing a turn that did not fail leaves its settled answer, validated and never empty; any other answer stays, and the charges are exact |
| AgentAnswers.StoppedRunsHaveAnswers | src/awesome_agent/agent/nodes.py:299-302 | in every reachable state a turn that stopped by itself has an answer |
| AgentWitnesses.OverflowLosesTail | src/awesome_agent/agent/nodes.py:168-170 | every budget of two model calls has a run that compresses with a recorded turn and gives the context up |
| AgentWitnesses.OverflowCheckpointIsRejected | src/awesome_agent/agent/nodes.py:254-259 | and its checkpoint is rejected |
| AgentWitnesses.ReservedCallCheckpointIsRejected | src/awesome_agent/agent/nodes.py:289-293 | a reserved answer that carries a tool call leaves a rejected checkpoint |
| AgentWitnesses.OverrunCheckpointIsRefused | src/awesome_agent/agent/nodes.py:375-378 | a tool result can take a resumable checkpoint over the token limit, which the tail check does not see |
| Operations.RunKeepsValid | src/awesome_agent/application/operations.py:115-349 | the session invariant holds after every interleaving |
| Operations.ActiveExactlyWhileLeased | src/awesome_agent/application/foreground.py:100-114 | at every await an operation is active exactly while its lease is held, and no release misses |
| Operations.EndedExactlyOnce | src/awesome_agent/application/operations.py:210-310 | one terminal attempt and one release for each operation that runs; exactly which ended operations freed their lease |
| Operations.AcceptedCancelIsFinal | src/awesome_agent/application/operations.py:509-524 | after cancel returned True only CANCELLED is ever published and no commit starts |
| Operations.StartedCommitIsFinal | src/awesome_agent/application/operations.py:351-413 | after a commit started cancel returns False and the committed outcome is what is published |
| Operations.EnteredOperationCanEnd | src/awesome_agent/application/operations.py:225-310 | from every reachable session an operation that runs can end within four events, with one attempt and its lease free |
| Operations.CancelWhileStartingAbandonsLease | src/awesome_agent/application/operations.py:210-224 | a cancel while STARTING has a continuation that leaves the lease held |
| Operations.SomeLeaseIsAbandoned | src/awesome_agent/application/operations.py:210-224 | seven events abandon a lease |
| Operations.AbandonedForever | src/awesome_agent/application/operations.py:132-157 | and then every later reservation is refused |
| Operations.CancelBeforeFirstStepStrands | src/awesome_agent/application/operations.py:312-349 | a cancel after the task is created and before its first step leaves the starter waiting for good |
| Operations.SomeStarterIsStranded | src/awesome_agent/application/operations.py:312-349 | five events strand a starter, with nothing published and the lease held |
| Operations.StrandedUntilStarterCancelled | src/awesome_agent/application/operations.py:312-349 | and so it stays in every continuation in which that starter is not cancelled |
| Operations.CancelledOperationAtRest | src/awesome_agent/application/operations.py:210-349 | an operation whose cancel was accepted has published CANCELLED, and nothing else, if and only if its task began or its starter was cancelled after the task was created |
| Operations.WhenCancelIsPublished | src/awesome_agent/application/operations.py:509-524 | for each phase in which cancel returns True, exactly when that cancel is published |
| Operations.PublishedOutcome | src/awesome_agent/application/operations.py:249-310 | over any events, COMPLETED is published exactly if the factory returned while RUNNING or a begun completion's action returned, FAILED exactly if it raised or another begun commit ended, CANCELLED exactly if it was asked to stop while RUNNING or was cancelled with nothing committed |
| Operations.ShutdownReservesNothing | src/awesome_agent/application/operations.py:526-544 | from the beginning of a shutdown no operation is reserved any more |
| OperationControl.ForegroundArbiter.Acquire | src/awesome_agent/application/foreground.py:100-107 | a lease is granted exactly when none is held and the session is not closing |
| OperationControl.ForegroundArbiter.Release | src/awesome_agent/application/foreground.py:109-114 | only the held lease is given back |
| OperationControl.OperationController.Reserve | src/awesome_agent/application/operations.py:132-157 | reserving takes the lease, asks the gate, and only an admitted reservation becomes active; a refused one gives the lease back and changes nothing else |
| OperationControl.OperationController.Abort | src/awesome_agent/application/operations.py:159-169 | an unconsumed reservation is consumed, stops being active and frees its lease; a consumed one changes nothing |
| OperationControl.OperationController.StartReserved | src/awesome_agent/application/operations.py:180-186 | only an unconsumed reservation that is still active starts, and it starts as STARTING |
| OperationControl.OperationController.TaskFirstStep | src/awesome_agent/application/operations.py:210-226 | a task cancelled before its first step never enters its factory; one that finds CANCELLING publishes once and keeps the lease; any other enters the factory |
| OperationControl.OperationController.BeginCommit | src/awesome_agent/application/operations.py:351-402 | a commit begins exactly when its operation is active and RUNNING, and makes it COMMITTING |
| OperationControl.OperationController.EndCommit | src/awesome_agent/application/operations.py:360-385 | the committed outcome is COMPLETED exactly for a completion whose action returned, FAILED otherwise |
| OperationControl.OperationController.FactoryEnds | src/awesome_agent/application/operations.py:249-297 | a factory ending while CANCELLING publishes CANCELLED, while RUNNING commits its own outcome first, and otherwise publishes what is committed; which outcome that is, `Operations.PublishedOutcome` says |
| OperationControl.OperationController.PublicationEnds | src/awesome_agent/application/operations.py:303-310 | clears every active field and frees the lease, unless the operation had been stopped early |
| OperationControl.OperationController.Cancel | src/awesome_agent/application/operations.py:509-524 | returns True exactly when the operation is starting, or running with a task; then it is CANCELLING, and otherwise nothing changes |
| OperationControl.OperationController.StarterCancelled | src/awesome_agent/application/operations.py:195-204 | a starter cancelled while announcing lets everything go; one waiting for its task stops a running task and waits for it |
| OperationControl.OperationController.ShutdownCancelsTask | src/awesome_agent/application/operations.py:526-544 | stops a RUNNING task and touches no committing or committed one |
| OperationControl.OperationController.Handle | src/awesome_agent/application/operations.py:132-544 | each event is handled by its method as its step |
| OperationControl.RunController | src/awesome_agent/application/operations.py:68-544 | over any events the objects end each running operation once, and what it published is the outcome that the events decide; one whose cancel returned True only published CANCELLED, one whose commit began only its committed outcome |
| DiagnosticLog.CompleteLinesIsTheCut | src/awesome_agent/application/diagnostics.py:357-377 | there is one cut after the last newline |
| DiagnosticLog.CutBetweenRecords | src/awesome_agent/application/diagnostics.py:238-243 | a cut after a newline splits the log between two records |
| DiagnosticLog.ShiftingDropsOldest | src/awesome_agent/application/diagnostics.py:238-254 | however far a rotation has come, exactly the oldest slot's bytes are gone |
| DiagnosticLog.ShiftingRetains | src/awesome_agent/application/diagnostics.py:238-254 | an interrupted rotation keeps the log a suffix of the records |
| DiagnosticLog.ShiftingKeeps | src/awesome_agent/application/diagnostics.py:238-254 | a rotation keeps the newest bytes; what it drops comes early exactly if an older slot stood empty, and only one that stops between two renames leaves a gap |
| DiagnosticLog.FullAfterRotation | src/awesome_agent/application/diagnostics.py:238-254 | a rotation leaves every older slot full if and only if none but the oldest stood empty before it |
| DiagnosticLog.StoppedRotationLosesEarly | src/awesome_agent/application/diagnostics.py:238-254 | a rotation that stops after one rename makes the next one drop a slot that an undisturbed one keeps |
| DiagnosticLog.LastLineEnd | src/awesome_agent/application/diagnostics.py:357-377 | the chunked backward scan finds the cut after the last newline |
| DiagnosticLog.LogDirectory.RemoveOversizedSlots | src/awesome_agent/application/diagnostics.py:231-236 | exactly the oversized slots are removed |
| DiagnosticLog.LogDirectory.RepairPartialLine | src/awesome_agent/application/diagnostics.py:357-377 | slot 0 is cut to its complete lines, or is unchanged |
| DiagnosticLog.LogDirectory.ShiftSlots | src/awesome_agent/application/diagnostics.py:238-254 | rotation is a shift by one; interrupted, a partly done one; its target is never occupied |
| DiagnosticLog.LogDirectory.WriteAll | src/awesome_agent/application/diagnostics.py:380-386 | partial writes append a prefix of the line, all of it on success |
| DiagnosticLog.LogDirectory.AppendRecord | src/awesome_agent/application/diagnostics.py:217-224 | a failed append leaves no record, a whole one, or an unfinished line; when nothing but the write fails it leaves everything as it was |
| DiagnosticLog.LogDirectory.WriteLine | src/awesome_agent/application/diagnostics.py:194-229 | from any slots a completed write bounds every slot; from bounded ones it changes exactly what it has to, with a rotation exactly if the line does not fit; from any reachable slots the log stays a suffix of all written records, and loses at most the oldest slot and only for lack of room; it succeeds when nothing fails, and leaves no part of a line when only the write does; after a write that dropped a slot every older slot is full if and only if none but the oldest stood empty |
| DiagnosticWriter.SubsequenceWithout | src/awesome_agent/application/diagnostics.py:174-180 | dropping records keeps the order of the others |
| DiagnosticWriter.ApplicationDiagnosticWriter.TryEmit | src/awesome_agent/application/diagnostics.py:89-114 | a record is admitted exactly when it fits, the writer accepts and the queue has room |
| DiagnosticWriter.ApplicationDiagnosticWriter.WriteNext | src/awesome_agent/application/diagnostics.py:139-172 | a busy lock loses one record, any other failure stops the writer, and otherwise the oldest record is written |
| DiagnosticWriter.LogSessions | src/awesome_agent/application/diagnostics.py:139-229 | over any sessions and crashes the log is the newest of the written records, and those were emitted, in order, none twice; one full slot of the newest bytes always survives, and all but one slot unless a turn dropped a slot while another older one stood empty, which takes a rotation stopped between two renames |
| Citations.FirstsCover | src/awesome_agent/agent/finalization.py:109-145 | every offered identity has a source, and every source was offered |
| Citations.CollectToolCitations | src/awesome_agent/agent/finalization.py:109-145 | the nested loops accept exactly the consistent, contiguous, bounded offers, and return their first occurrences, numbered from S1 |
| Citations.SourcesAreIdentified | src/awesome_agent/agent/finalization.py:122-140 | ids and URLs determine each other, and exactly the offered citations are listed |
| Citations.EarlierResultsAreAccepted | src/awesome_agent/agent/finalization.py:109-145 | an accepted result list accepts every prefix, with a prefix of its sources |
| Citations.NumberedSourcesAreAccepted | src/awesome_agent/agent/finalization.py:109-145 | up to 128 sources S1, S2 and so on under different URLs are accepted as they are |
| Citations.FirstSourceIsS1 | src/awesome_agent/agent/finalization.py:141-144 | a single source is accepted if and only if it is S1 |
| SourceList.EscapeSourceTitle | src/awesome_agent/agent/finalization.py:213-217 | replacing one kind of character after another equals a single pass |
| SourceList.UnescapeUndoesEscape | src/awesome_agent/agent/finalization.py:213-217 | escaping loses nothing |
| SourceList.EscapedHasNoMarkers | src/awesome_agent/agent/finalization.py:213-217 | no title can forge a marker |
| SourceList.MarkersSplit | src/awesome_agent/agent/finalization.py:106-156 | no marker reaches across a separating character |
| SourceList.AppendSources | src/awesome_agent/agent/finalization.py:185-210 | the text is a kept part of the answer, the header and the list: all of the answer but trailing whitespace if that leaves room, else all that header and one marker leave; at most 200,000 characters, as many source lines as fit, flagged truncated exactly when some do not |
| SourceList.LineNamesSource | src/awesome_agent/agent/finalization.py:198-204 | a source line holds the id, the title, which unescaping gives back, and the URL |
| SourceList.SourceLineMarkers | src/awesome_agent/agent/finalization.py:200 | a source line cites its own id and then the markers its URL spells out; its title adds none |
| SourceList.ListCitesOnlyIds | src/awesome_agent/agent/finalization.py:198-205 | a list cites exactly its ids if and only if no listed URL contains a marker |
| SourceList.ListCitesWhatItLists | src/awesome_agent/agent/finalization.py:185-210 | the markers of the appended list are exactly the listed ids in order, each followed by those of its URL |
| SourceList.UrlCanForgeMarker | src/awesome_agent/core/citations.py:38-66 | a URL with every property the validator asks of one with a plain host makes a list cite a source it does not list |
| SourceList.AppendedCites | src/awesome_agent/agent/finalization.py:193-210 | the list cites a source exactly when the answer was not cramped |
| SourceList.CrampedAnswerStaysUncited | src/awesome_agent/agent/finalization.py:192-210 | an answer with room for one character still cites nothing afterwards |
| SourceList.ValidateAnswerCitations | src/awesome_agent/agent/finalization.py:148-182 | a cited answer is untouched; any other keeps its text above a list of sources and cites one afterwards unless cramped; the diagnostics say exactly what happened |
| Bootstrap.RunKeepsValid | src/awesome_agent/application/bootstrap.py:99-320 | over any calls: INITIALIZING exactly while a generation is active, an interaction id exactly in an interaction phase, skill operations only while uninitialized, and READY never changes again |
| Bootstrap.StaleTokensStayStale | src/awesome_agent/application/bootstrap.py:297-311 | a token that may not finish its attempt never may again |
| Bootstrap.StalePreinitializesStayStale | src/awesome_agent/application/bootstrap.py:193-198 | a skill-management token that is not the active one never becomes it again |
| Bootstrap.SkillActiveExactlyUntilCompleted | src/awesome_agent/application/bootstrap.py:176-198 | after any calls, a skill operation is active if and only if it began and its token has not been completed |
| Bootstrap.CompletedSkillRestoresState | src/awesome_agent/application/bootstrap.py:176-198 | a completed skill operation leaves the state before it, after anything in between; its token is stale and initialize is admitted again |
| Bootstrap.AttemptIsOpenUntilEnded | src/awesome_agent/application/bootstrap.py:159-230 | an initialize attempt may be finished exactly until the first call that completes or aborts it |
| Bootstrap.OpenAttemptFreezesState | src/awesome_agent/application/bootstrap.py:159-175 | while an attempt is open nothing else moves the state |
| Bootstrap.FailedAttemptRestoresOrigin | src/awesome_agent/application/bootstrap.py:200-230 | a failed, refused or aborted attempt restores exactly the state it began from, after anything in between |
| Bootstrap.ReadyOnlyWhenReportedOrTrusted | src/awesome_agent/application/bootstrap.py:200-287 | the only two ways to become ready |
| Bootstrap.AdmissionAgrees | src/awesome_agent/application/bootstrap.py:123-157 | in every reachable state admission agrees with the transitions it guards |
| Bootstrap.RejectionCodes | src/awesome_agent/application/bootstrap.py:123-157 | in every reachable state, when exactly each rejection is given; cancelling and shutting down are always admitted |
| Bootstrap.PendingAnswerIsBound | src/awesome_agent/application/bootstrap.py:232-287 | an answer is bound exactly if it names the pending identity, and resolved trust then opens readiness |
| Bootstrap.ApplicationBootstrap.BeginInitialize | src/awesome_agent/application/bootstrap.py:159-174 | begins exactly when nothing else is in progress; the token remembers the exact phase and interaction id, and a ready application only gets an inert token |
| Bootstrap.ApplicationBootstrap.CompleteInitialize | src/awesome_agent/application/bootstrap.py:200-224 | a reported state replaces INITIALIZING, a failure or a refused result restores the origin; it raises exactly for stale tokens and refused results |
| Bootstrap.ApplicationBootstrap.CompleteInteraction | src/awesome_agent/application/bootstrap.py:254-287 | only the pending identity, resolved and answered with trust, opens readiness |
| Bootstrap.RunBootstrap | src/awesome_agent/application/bootstrap.py:99-320 | over any calls with tokens it handed out the object stays ready once ready, no attempt finishes twice, and a skill operation is active exactly if one begun has not been completed |
| StorageDiagnostic.NameCauses | scripts/release/storage_contract.py:139-168 | the walk with its seen set terminates on any chain and equals its specification |
| StorageDiagnostic.ChainIsNamed | scripts/release/storage_contract.py:139-168 | from every exception a path of at most eight different ones is named in order, with an end that says exactly whether the chain ended, came back or was cut |
| StorageDiagnostic.ChainFollowsLinks | scripts/release/storage_contract.py:139-168 | the same without the functions that compute it: which link is followed, and the token of each kind |
| StorageDiagnostic.SafeErrorChain | scripts/release/storage_contract.py:139-181 | the produced text is the bounded, joined walk |
| StorageDiagnostic.ShortenedFits | scripts/release/storage_contract.py:169-181 | shortening ends with a line that fits |
| StorageDiagnostic.ShortenedKeepsFront | scripts/release/storage_contract.py:169-181 | it drops only from behind, never the first cause, and never one more than needed |
| StorageDiagnostic.SplitUndoesJoin | scripts/release/verify_bundle.py:237-240 | splitting the payload gives back its tokens |
| StorageDiagnostic.StorageContractFailureDetail | scripts/release/verify_bundle.py:226-244 | the backward scan is the last non-blank line, checked |
| StorageDiagnostic.AcceptedExactly | scripts/release/verify_bundle.py:217-244 | output is accepted if and only if its last line that is not blank is at most 512 characters, the prefix and one to nine known tokens |
| StorageDiagnostic.ProducedLineIsAccepted | scripts/release/verify_bundle.py:217-244 | for every chain and any earlier output the produced line names a front of the chain, and the verifier takes exactly that line if and only if no exception named in it has a Boolean errno |
| StorageDiagnostic.BooleanErrnoIsRefused | scripts/release/storage_contract.py:153-160 | one error whose number is a Boolean is printed and not accepted |

## Left out

- File descriptors, identity checks, permissions, fsync and temporary names: each file step is one atomic replace, rename, truncation or unlink.
- JSON, YAML and pydantic encoding: records and documents are datatypes with the validators that carry a constraint.
- Publishing a new runtime configuration after a change, its generations, and the commands and prompts that start one.
- SQLite, model gateways, tools, MCP and memory: what they promise is in `Allowed` and under Assumptions.
- The agent's web-request quota, usage totals, reasoning continuation and the manifest checks of a frozen context outside the message tail and the token sum and limit.
- AgentNodes.FinalizeNode: the answer text after citations were validated is a parameter of the step; `FinalizingKeepsAnswer` takes it to be what `SourceList` leaves of the settled answer.
- AgentNodes.Compress: the inner compactor's own retry loop is its contract, because it lives behind the model gateway.
- A tool result or final answer whose citations are refused: the node raises and no state is produced, so the loop has no step for it.
- OperationController: results and event payloads, and the arbiter's exclusive and interaction leases, which share its single lease slot.
- `publish_committed`, which publishes a Turn's own event beside the terminal one.
- The exactly-once claims are for operations whose factory was entered; `EndedExactlyOnce` says exactly what holds of the others.
- DiagnosticLog.LogDirectory.WriteLine: retention is for one size bound over all sessions; under a smaller one, removing an oversized slot can open a gap.
- AgentStepLimit.RecursionLimitSuffices: not an equivalence where fewer tool calls are budgeted than turns before the reserved one, because the model calls left over can go to compressions instead.
- Timing: the queue's wait, lock timeouts and publication timeouts are free choices.
- Bootstrap tokens of a wrong Python type, and results of a wrong type, are one malformed case.
- How a contract message is turned into its token, and the token tables themselves, which are fixed data.
- StorageDiagnostic.ProducedLineIsAccepted: output after the line may only be line ends, because the verifier reads the last line.
- Terminal interface, protocol fixtures, release subprocesses, site and prototypes: plumbing.
