# Agent runner: a Dafny model of durable execution

The repository runs one approved coding task per Redmine issue. A single Controller
process polls an issue tracker, records the start of an execution in the issue's
custom fields, runs an agent in a sandbox, stores the result as one immutable object in
a write-once store, and records how the execution ended. The process may die at any
moment; whatever is durable is in the tracker and in the object store, and a restart has
nothing else to go by.

This project models that machinery and proves what it promises. `dafny verify
dfyconfig.toml` checks everything.

## How the model is organised

| files | what they model |
|---|---|
| `Protocol`, `ProtocolSafety`, `ProtocolAttendance`, `ProtocolTheorems`, `ProtocolWitness` | the durable execution protocol as a step system: issues, object store, process, locks, every remote call failing or losing its answer, crashes and restarts between any two steps, any number of active cycles |
| `Preparation`, `PreparationCorrectness` | what becomes of a validated candidate: handoff, revalidation, exact source, formal gate, immutable snapshot |
| `LocalLock`, `Controller`, `Production` | the same protocol as code: startup reconciliation, the poll loop, the bounded scan in its lock bracket, the handler chain; every method extends a trace by protocol steps, so everything proved of all runs holds of the code; contracts also say which requests a call may make, and that undisturbed calls succeed |
| `Redmine`, `RedmineWriters`, `RedmineCorrectness`, `RedmineRefinement` | the Redmine writers on custom fields, against a tracker that may answer anything; and the proof that guard, write and read-back are the protocol's |
| `Strings`, `Utf8`, `Json`, `JsonRoundTrip`, `PrettyJson`, `Encodings`, `Patterns` | UTF-16 texts, UTF-8 with replacement, the full JSON grammar and both printers, hexadecimal and base64 |
| `Contract`, `ContractCorrectness`, `NoChanges` | the canonical artifact: building, printing, re-reading, metadata |
| `Address`, `S3`, `S3Correctness`, `S3Witness` | the deterministic address, the conditional put settled by a head request, recovery from an identity alone, and an artifact that recovery refuses |
| `EndToEnd` | the protocol instantiated with the concrete artifact store |
| `Truncation`, `Sanitizing`, `Projection`, `ProjectionState`, `ProjectionBudget`, `ProjectionCorrectness`, `ProjectionOrder`, `ProjectionGrowth`, `ProjectionSecrecy`, `ProjectionPaths` | the requirements projection under its byte budget, its fingerprint, its secrets and its recorded paths |
| `Capture`, `ChangeSet`, `ChangeSetCorrectness` | the bounded output capture and the collection of changed files and patch |
| `SandboxHandle`, `AgentRunner` | the sandbox handle and the one-shot agent runner as event machines |
| `Basics`, `Domain`, `Sorting`, `Collation` | results and options, execution identities and outcomes, stable sorting, what is assumed of `localeCompare` |

## What is assumed of the environment

- A Redmine update applies all its fields or none of them; its answer may be lost, but it never lands later than the call that sent it. `Redmine`, `RedmineWriters` and `RedmineCorrectness` do not use this: there every answer is arbitrary.
- A put with `If-None-Match: *` is atomic and nobody deletes objects. A put may fail or lose its answer and still have acted, but it never lands after its call was answered or abandoned; `ProtocolTheorems.AbsenceOutcomesMeanAbsence` rests on that. A read reports absence only if the object is absent, and what it reports of an object is true; the encryption, version, length and checksum may each be missing from the report, and the metadata as a whole.
- Only the Controller writes execution and rejection fields. People may move issues between projects and change their readiness at any time, a running issue included.
- Field IDs, the allowed projects and the store configuration stay fixed. The startup list contains every running issue of the allowed projects; the tracker client throws instead of returning an incomplete one (`src/redmine/rest-client.ts:144-150`).
- Execution IDs are never allocated twice.
- SHA-256 is an arbitrary function to 32 bytes. No collision freedom is assumed of it in general; where it matters, the two bodies at hand are assumed not to collide.
- `localeCompare` is an arbitrary function. Statements about sorted order name the condition they need: `Signed` (opposite signs when exchanged), `Preordered` (also transitive), `Linear` (also equating only equal texts).

## Where the code and its documentation differ, or a promise has a limit

- `README.md:318-320` of the repository says that the start write clears stale rejection fields. The code requires all fourteen fields to be empty first (`src/redmine/durable-state-guard.ts:32-38`), and the model follows the code.
- `artifact_persistence_failed` does not mean that no object exists (`ProtocolWitness.ArtifactFailureDecidesNothing`); `S3Correctness.ThrownPersistDecidesNothing` says exactly when one does.
- Recovery refuses an identity with a blank text that the builder accepts (`S3Correctness.PersistThenRecover` has the exact condition, `S3Witness.BlankPersistsAndIsRefused` such an artifact for every execution ID); preparation rules such identities out.
- Read-back by field ID trusts the binding of names to IDs. With a stable binding it is exact (`RedmineCorrectness.ConfirmedExact`); without one, a confirmed write displays what was projected exactly under the condition of `RedmineCorrectness.ConfirmedDisplays`, which the two artifact finalizers always meet and a start, a rejection, a failure and an interruption can miss (`RedmineCorrectness.ReboundStartIsConfirmed`, `RedmineCorrectness.ReboundRejectionIsConfirmed`, `RedmineCorrectness.ReboundFailureIsConfirmed`, `RedmineCorrectness.ReboundInterruptionIsConfirmed`).
- A configured secret that ends with the ellipsis character can appear in a truncated text, at any bound (`Sanitizing.EllipsisSecretCanAppear`), exactly when the bound cuts the text right after the rest of it (`Sanitizing.BoundedTextLeaksExactly`); a secret contained in the default diagnostic can appear in it (`Sanitizing.DiagnosticIsSafe`).
- Truncating a custom field or the description for the budget can make the serialized input longer (`ProjectionGrowth.BudgetCanGrow`, `ProjectionGrowth.DescriptionCanGrow`), exactly when the recorded path is new and takes more bytes than the cut saves (`ProjectionGrowth.TruncationGrowsExactly`, `ProjectionGrowth.DescriptionGrowsExactly`); for the description, which is cut last, that always ends in the throw (`ProjectionGrowth.GrownDescriptionThrows`).
- Recorded note paths count from the journals first selected, so they are off by the number of journals the budget dropped (`ProjectionPaths.NotePathsDenote`).
- An unflagged patch is byte-exact if and only if git's output is valid UTF-8 (`ChangeSetCorrectness.PatchIsExact`), and the flag measures the re-encoded output (`ChangeSetCorrectness.PatchIsReencoded`), so that a diff within the bound can be flagged (`ChangeSetCorrectness.AddedLineWitness`); what exceeds the bound is flagged in any case (`ChangeSetCorrectness.NothingIsDroppedSilently`).
- A later `dispose` returns at once whatever became of the removal (`SandboxHandle.LaterDispose` has the exact condition under which everything is gone, `SandboxHandle.SecondDisposeReturnsEarly` a call where it is not).
- The sandbox's enforcement counts only once the agent's process has been spawned: the runner adds its listener then and never asks whether the signal has fired before. An earlier enforcement is lost, and the run can be reported as a success (`AgentRunner.EarlyEnforcementIsLost`); `AgentRunner.EnforcementCountsExactly` states the condition as an if-and-only-if.
- Startup recovery sees the running issues of the allowed projects at that moment. One that people move in later is left running while the process lives (`ProtocolWitness.MovedInIsLeftRunning`), and no other is running at the start of a poll (`ProtocolTheorems.PollStartsClean`, `ProtocolTheorems.RecoveryNeverLosesAnArtifact`).

## Model

| member | source | states |
|---|---|---|
| `ProtocolTheorems.SuccessImpliesDurability` | src/artifact/phase49-finalization.ts:57-97 | in every state of every run, with crashes, restarts and lost answers, an issue at success records the reference of its recorded execution, and the object stored for that execution has the recorded identity and outcome |
| `ProtocolTheorems.AbsenceOutcomesMeanAbsence` | src/recovery/phase49-artifact-reconciler.ts:90-99 | a timeout, start failure, agent failure or interruption is only ever recorded for an execution that has no stored object |
| `ProtocolTheorems.AtMostOneInvocation` | src/execution/preparation.ts:88-108 | over all runs and any number of concurrent cycles the agent is invoked at most once per issue |
| `ProtocolTheorems.InvocationFollowsConfirmedStart` | src/execution/preparation.ts:105-108 | each invocation is made while the issue shows exactly the start record of that very execution |
| `ProtocolTheorems.PollStartsClean` | src/controller/controller.ts:65-75 | whenever no cycle is active and none has thrown, no lock is held, and an issue of an allowed project is running if and only if people moved it in while it was running, since the process started and with no cycle or recovery at work on it |
| `ProtocolTheorems.OneCyclePerIssue` | src/controller/local-lock.ts:15-36 | at most one active cycle is inside the lock bracket of an issue, and the lock is held meanwhile |
| `ProtocolTheorems.LifecycleOnlyAdvances` | src/redmine/execution-writer.ts:81-113 | over any stretch of a run a terminal record never changes, a running one only finishes with its seven start facts intact, and stored objects are neither lost nor altered |
| `ProtocolTheorems.RecoveryNeverLosesAnArtifact` | src/recovery/phase49-artifact-reconciler.ts:86-105 | if an object is stored for a running execution when startup begins, its record is from then on untouched or delivered as success for that object; while the process polls with the issue in an allowed project it is delivered, if and only if people did not move it in unattended |
| `ProtocolSafety.RunKeepsInv` | src/controller/controller.ts:65-224 | the invariant behind the protocol theorems holds in every state of every run |
| `ProtocolSafety.TaskStepKeepsInv` | src/execution/preparation.ts:61-109 | one step of any task keeps the durable invariant and touches only its own issue |
| `ProtocolSafety.GuardEstablishesReady` | src/redmine/durable-state-guard.ts:28-48 | a first read that admits a mutation establishes everything its write relies on |
| `ProtocolSafety.RecordedIdentityIsStarted` | src/recovery/phase49-artifact-reconciler.ts:108-167 | the identity read back from a started issue's record is the identity it was started with |
| `ProtocolWitness.ArtifactFailureDecidesNothing` | src/artifact/phase49-finalization.ts:74-84 | for either answer to whether the put landed there is a run that ends in the same `artifact_persistence_failed` record |
| `ProtocolWitness.CrashAfterPutIsDelivered` | src/recovery/phase49-artifact-reconciler.ts:86-105 | success after a crash is reachable: a put that landed unnoticed before the process died is delivered by the restart, and polling begins with one invocation on record |
| `ProtocolWitness.MovedInIsLeftRunning` | src/recovery/startup-reconciler.ts:35-83 | an issue is moved out while it runs, the process crashes and restarts with nothing to recover, and the issue moved back in is running while the process polls |
| `ProtocolAttendance.RunAttends` | src/controller/controller.ts:65-75 | in every state of every run a running issue of an allowed project has a recovery or a cycle to answer for it, or some call has failed, or people moved it in unattended |
| `ProtocolAttendance.MovedInStays` | src/controller/controller.ts:65-75 | an issue that was moved in unattended keeps its running record for as long as the process lives |
| `LocalLock.InMemoryIssueLock.TryAcquire` | src/controller/local-lock.ts:18-25 | acquires exactly when the issue is not held, and throws without effect for an ID that is no positive safe integer |
| `LocalLock.InMemoryIssueLock.Release` | src/controller/local-lock.ts:27-30 | removes the issue from the held set and nothing else |
| `Controller.AgentController.Serve` | src/controller/controller.ts:65-75 | reconciliation comes first; at every poll start, and whenever the loop ends normally, the running issues of the allowed projects are exactly those that people moved in unattended; the locks are empty; the trace is a protocol run |
| `Controller.AgentController.RunOnce` | src/controller/controller.ts:82-122 | at most 100 candidates are taken up and at most one is consumed; every one before it was skipped without a request; held locks and process are restored |
| `Controller.AgentController.Scan` | src/controller/controller.ts:98-113 | the events of a scan are exactly those of skipped candidates followed by one closed lock bracket |
| `Controller.AgentController.ProcessCandidate` | src/controller/controller.ts:124-224 | the lock bracket is closed on every exit; a skipped candidate causes no request; whatever throws taints the cycle |
| `Controller.AgentController.Consider` | src/controller/controller.ts:131-220 | a candidate is skipped exactly when its re-read is not eligible; otherwise its verdict decides the first request; an eligible candidate whose processing meets no trouble ends with its artifact stored and its issue at success |
| `Controller.AgentController.Guard` | src/controller/controller.ts:131-180 | the post-lock guards pass exactly the candidates whose re-read issue is eligible, and throw exactly when the read does |
| `Controller.AgentController.Follow` | src/controller/controller.ts:182-220 | a rejection is requested with the verdict's outcome and diagnostic, a prepared candidate is executed, an unusable one causes no request |
| `Controller.AgentController.Execute` | src/execution/preparation.ts:88-109 | no agent work happens before the start is requested and confirmed; an undisturbed execution of a pristine issue is consumed and ends at success with its artifact stored |
| `Controller.AgentController.Begin` | src/execution/preparation.ts:88-108 | the start is requested only for a fresh execution ID, and confirmed before anything else happens |
| `Controller.AgentController.HandleStarted` | src/sandbox/phase48-4-handler.ts:35-77 | a failed preparation leads to a start-failure record alone; otherwise the agent is invoked once, on a checkout of exactly the recorded source, and its result leads to at most one record; a failed preparation or disposal never returns normally |
| `Controller.AgentController.PrepareSandbox` | src/sandbox/phase48-4-handler.ts:35-77 | goes on exactly with a checkout of the recorded repository and revision in the workspace; anything else is recorded as a start failure |
| `Controller.AgentController.RunAgent` | src/agent/phase48-5-handler.ts:28-61 | one invocation, then exactly the continuation that the agent's result calls for |
| `Controller.AgentController.Route` | src/agent/phase48-5-handler.ts:44-60 | a started failure is recorded with its own outcome, an adapter that threw as a failed agent; a provisional success continues to the artifact |
| `Controller.AgentController.Finalize` | src/artifact/phase49-finalization.ts:57-97 | success is requested only for the stored artifact of this execution and outcome, any other request is an artifact failure; a boundary mismatch or failed collection requests nothing; what does not build is recorded; an undisturbed finalization succeeds |
| `Controller.AgentController.CollectAndBuild` | src/artifact/phase49-provisional-handler.ts:33-74 | throws exactly on a boundary mismatch or a failed collection, and otherwise yields the built artifact if it is this execution's |
| `Controller.AgentController.Deliver` | src/artifact/phase49-finalization.ts:73-97 | success is requested only while the artifact is stored; a persist that fails undisturbed is recorded as an artifact failure; an undisturbed delivery shows success |
| `Controller.AgentController.Persist` | src/artifact/s3-persistence.ts:197-228 | returns normally exactly when the put acted or was settled and the head request confirms that this very artifact is stored; the store afterwards is stated for every combination of answers |
| `Controller.AgentController.Conduct` | src/redmine/phase49-finalizer.ts:101-142 | at most one request, of exactly this mutation; normal return only after its read-back confirmed it; an admitted mutation whose calls are undisturbed lands and is confirmed |
| `Controller.AgentController.Reconcile` | src/recovery/startup-reconciler.ts:35-83 | polling is entered exactly when reconciliation returns normally, and only if no issue was listed twice |
| `Controller.AgentController.RecoverListed` | src/recovery/startup-reconciler.ts:54-76 | one listed issue is recovered, or counted as a failure, and struck off the list; its one request is what the store decides |
| `Controller.AgentController.RecoverIssue` | src/recovery/phase49-artifact-reconciler.ts:86-105 | at most one request, and that for what the store decides of the recorded identity; undisturbed, the record ends with the stored artifact's outcome if there is one and as interrupted if there is none |
| `Controller.AgentController.RecoverArtifact` | src/artifact/s3-persistence.ts:255-313 | interruption is requested only if an answered head request found nothing, success only for a stored artifact of the same identity |
| `Controller.AgentController.Restart` | src/controller/controller.ts:65-75 | a restart keeps what is durable, empties the locks and is again a protocol run |
| `Controller.AgentController.InvokedAtMostOnce` | src/agent/phase48-5-handler.ts:28-42 | among the calls the code made, over any number of restarts, no issue's agent appears twice |
| `Controller.HandledWork` | src/sandbox/phase48-4-handler.ts:41-76 | what a confirmed start and its handler add is one start, then a start failure alone or one invocation at the recorded source and at most one record of its end |
| `Controller.CloseBracket` | src/controller/controller.ts:127-223 | whatever the verdict leads to, the candidate's events form one closed bracket about its own issue |
| `Preparation.PreparedForIssue` | src/execution/preparation.ts:147-167 | a prepared execution is of the candidate's own issue and project |
| `PreparationCorrectness.PreparedIsRecoverable` | src/execution/preparation.ts:61-198 | a prepared execution carries exactly the approved identity and the resolved source, and its start record has every shape recovery and finalization will ask for: its identity is read back from it and is one the artifact store accepts |
| `PreparationCorrectness.RejectionMeaning` | src/repository/phase48-2-handler.ts:27-47 | a candidate is rejected exactly when a port refuses it or the approved facts disagree, and as stale exactly when its revalidation says so |
| `Production.DeploymentIsSupplied` | src/controller/phase49-5-runtime.ts:107-159 | with ports that answer as the validator and the resolver do, preparation gives the controller only identities the deployment recovers |
| `Controller.AgentController.OnlyMovedIn` | src/controller/controller.ts:65-75 | at a resting, untainted controller the running issues of the allowed projects are exactly those that people moved in unattended |
| `Redmine.BindPristine` | src/redmine/durable-state-guard.ts:28-48 | succeeds exactly when all fourteen fields are present once, scalar, empty and under distinct IDs, and binds each name to its field |
| `Redmine.HasNoDuplicate` | src/redmine/durable-state-guard.ts:42-45 | says whether all IDs differ |
| `Redmine.AssertScalars` | src/redmine/phase49-finalizer.ts:346-350 | accepts exactly the issues whose listed fields are present once with the expected scalar values |
| `Redmine.IndexWrites` | src/redmine/execution-writer.ts:119 | the index of a list of writes holds the last value written to each ID |
| `Redmine.AssertReadBack` | src/redmine/execution-writer.ts:115-131 | accepts exactly the issues whose named fields show what was written to the IDs they now have |
| `Redmine.AssertReadBackAs` | src/redmine/interrupted-finalizer.ts:160-171 | the same, and what was written is the expected value |
| `RedmineWriters.PersistStart` | src/redmine/execution-writer.ts:53-63 | one request with exactly the fourteen projected values, sent exactly when the first read is admitted; returns normally exactly when it was accepted and the second read confirms it |
| `RedmineWriters.Reject` | src/redmine/rejection-writer.ts:55-83 | the same for a rejection before any execution, with the sanitized diagnostic; if the sanitizer throws, one read is all that happens and nothing is sent |
| `RedmineWriters.FinalizeFailure` | src/redmine/execution-finalizer.ts:53-74 | the same for a started execution that failed |
| `RedmineWriters.FinalizeInterrupted` | src/redmine/interrupted-finalizer.ts:57-75 | the same for an interrupted execution, whose recorded identity must be usable and unchanged |
| `RedmineWriters.FinalizeSuccess` | src/redmine/phase49-finalizer.ts:101-142 | the same for success; an artifact whose reference is not bound to it is refused before anything is read or sent |
| `RedmineWriters.FinalizeArtifactFailure` | src/redmine/phase49-finalizer.ts:144-177 | the same for an artifact failure |
| `RedmineCorrectness.ConfirmedExact` | src/redmine/interrupted-finalizer.ts:143-176 | for every writer and any tracker: while field IDs stay bound, and for the artifact finalizers even if they do not, a write is confirmed exactly when the re-read issue is the same, in its project, with its identity, and displays every projected value |
| `RedmineCorrectness.ConfirmedDisplays` | src/redmine/rejection-writer.ts:111-135 | for every writer, with no assumption on IDs: a confirmed write displays the projected values exactly when each name that is only read back by ID has an ID that was written with that name's value; the artifact finalizers have no such name |
| `RedmineCorrectness.ReboundStartIsConfirmed` | src/redmine/execution-writer.ts:119-130 | two names whose IDs are exchanged between the reads: the start is confirmed although the issue displays another execution ID |
| `RedmineCorrectness.ReboundRejectionIsConfirmed` | src/redmine/rejection-writer.ts:111-135 | the time and the diagnostic with exchanged IDs: the rejection is confirmed although the issue displays neither as written |
| `RedmineCorrectness.ReboundFailureIsConfirmed` | src/redmine/execution-finalizer.ts:102-132 | a finish time that shares the lifecycle's ID: the failure is confirmed although the issue displays another finish time |
| `RedmineCorrectness.ReboundInterruptionIsConfirmed` | src/redmine/interrupted-finalizer.ts:143-176 | the same for an interruption, for every execution whose recorded facts have the shapes recovery asks for |
| `RedmineCorrectness.WritesById` | src/redmine/execution-writer.ts:103-112 | under distinct IDs a request holds for each field's ID exactly the value projected for its name, and nothing for any other ID |
| `RedmineCorrectness.NamedApplied` | src/redmine/domain.ts:65-78 | looking a field up by name commutes with applying a request |
| `RedmineRefinement.AdmittedExact` | src/redmine/execution-finalizer.ts:89-100 | a writer sends its request exactly when the protocol admits the mutation and the recorded texts have their required shapes |
| `RedmineRefinement.HonouredMirrors` | src/redmine/execution-writer.ts:81-113 | a tracker that honours the request displays exactly the protocol's written record, every other field unchanged |
| `RedmineRefinement.ConfirmedIsConfirms` | src/redmine/phase49-finalizer.ts:263-306 | while field IDs stay bound, a writer returns normally exactly when the protocol confirms the mutation |
| `RedmineRefinement.RunningIdentityExact` | src/recovery/phase49-artifact-reconciler.ts:108-167 | the identity read for recovery is the recorded one, exactly for an active record of usable shape in an allowed project |
| `RedmineRefinement.UsableIdentityIsRecoverable` | src/artifact/s3-persistence.ts:399-419 | an identity read for recovery is one the artifact store accepts |
| `Utf8.DecodeEncode` | src/artifact/contract.ts:192-193 | encoding then decoding gives back any text without lone surrogates |
| `Utf8.ReencodingNeverShrinks` | src/sandbox/resource-policy.ts:41-47 | decoding any bytes gives well-formed text whose encoding is at least as long |
| `Utf8.ValidUtf8Meaning` | src/sandbox/resource-policy.ts:41-47 | bytes fit the grammar of section 4 of RFC 3629 exactly if they survive decoding and encoding, and exactly if they encode some well-formed text |
| `JsonRoundTrip.ParsePrint` | src/artifact/contract.ts:462-486 | parsing a printed value gives the value back |
| `JsonRoundTrip.ParseCanonical` | src/artifact/contract.ts:462-486 | parsing the sorted-key print gives the value with sorted keys |
| `JsonRoundTrip.CanonicalInjective` | src/artifact/contract.ts:462-486 | equal canonical texts come from values that agree up to key order |
| `JsonRoundTrip.CanonicalBytes` | src/artifact/contract.ts:192-193 | the canonical text survives UTF-8 unchanged, whatever strings are in it |
| `Encodings.HexInjective` | src/artifact/contract.ts:405-407 | hexadecimal texts determine their bytes |
| `Encodings.Base64UrlInjective` | src/artifact/contract.ts:401-403 | base64url texts determine their bytes |
| `Encodings.Base64Injective` | src/artifact/contract.ts:409-411 | base64 texts of equally long byte sequences determine them |
| `Strings.DecimalRoundTrip` | src/recovery/phase49-artifact-reconciler.ts:135-141 | reading a printed positive number gives it back |
| `Contract.NormalizeBySorting` | src/artifact/contract.ts:345-362 | the loop over paths, the sort and the scan of neighbours compute the normalized file list, or throw exactly where it does |
| `Contract.MeasureMetadataBytes` | src/artifact/contract.ts:391-399 | the loop adds up header names and values |
| `ContractCorrectness.VerifyBodyExact` | src/artifact/contract.ts:275-309 | a body is accepted with a document exactly when it decodes to the canonical print of that document and the document is valid |
| `ContractCorrectness.EnvelopeRoundTrip` | src/artifact/contract.ts:442-486 | parsing the printed envelope of any document gives its value back, and its bytes decode to the print |
| `ContractCorrectness.EnvelopeInjective` | src/artifact/contract.ts:442-486 | valid documents with one print are equal |
| `ContractCorrectness.BuiltBodyVerifies` | src/artifact/contract.ts:275-309 | every built body is accepted, bare and against its artifact, and gives back the document it was built from |
| `ContractCorrectness.RebuildSeals` | src/artifact/s3-persistence.ts:283-298 | a valid document rebuilds to its seal exactly when its outcome matches its change set, and otherwise throws |
| `ContractCorrectness.RebuildIsIdentity` | src/artifact/s3-persistence.ts:283-304 | rebuilding from the verified document gives the built artifact back |
| `ContractCorrectness.BodyDeterminesArtifact` | src/artifact/contract.ts:162-226 | artifacts with one body are equal in manifest, metadata and checksum |
| `ContractCorrectness.NormalizationIsIdempotent` | src/artifact/contract.ts:345-362 | a normalized list is a permutation of its source and normalizes to itself |
| `ContractCorrectness.BuildIsOrderIndependent` | src/artifact/contract.ts:162-226 | permuting the reported files changes neither a byte nor a checksum nor whether it builds |
| `ContractCorrectness.MetadataIsFaithful` | src/artifact/contract.ts:364-389 | for well-formed texts two manifests have equal metadata exactly when identity, outcome and patch checksum are equal |
| `ContractCorrectness.MetadataIsPrintable` | src/artifact/contract.ts:378-386 | the projection is printable ASCII exactly when the raw execution ID is |
| `ContractCorrectness.BuiltArtifactFits` | src/artifact/contract.ts:195-211 | whatever builds has at most 8 MiB of body and 1536 bytes of printable metadata |
| `NoChanges.NoChangesIsOrdinary` | src/artifact/no-changes.ts:65-74 | the empty-patch adapter accepts exactly what the ordinary builder accepts for `no_changes` and yields the same artifact |
| `Address.ReferenceRoundTrip` | src/artifact/s3-persistence.ts:137-183 | a reference parses back to the deterministic key of its execution |
| `Address.KeyInjective` | src/artifact/s3-persistence.ts:137-145 | different executions have different keys |
| `S3.ArtifactPersistence.PersistAndConfirm` | src/artifact/s3-persistence.ts:197-228 | conducts exactly the specified persist over the scripted answers, with at most two calls |
| `S3.ArtifactPersistence.RecoverAndVerify` | src/artifact/s3-persistence.ts:255-313 | conducts exactly the specified recovery and changes no object |
| `S3.ArtifactPersistence.GetAndVerify` | src/artifact/s3-persistence.ts:230-248 | conducts exactly the specified read-back and changes no object |
| `S3Correctness.MatchesExact` | src/artifact/s3-persistence.ts:326-350 | an observation passes exactly when it is complete and the object is the artifact's own, body and metadata |
| `S3Correctness.PersistExact` | src/artifact/s3-persistence.ts:197-228 | persisting returns exactly when the put was answered or its failure is settleable, the head answer is complete, and the stored object is the artifact's own |
| `S3Correctness.PersistFrame` | src/artifact/s3-persistence.ts:202-219 | whatever it returns, a persist adds at most the artifact's object under its own key |
| `S3Correctness.PersistedAddress` | src/artifact/s3-persistence.ts:221-227 | a returned persist names the deterministic address and says whether the put itself failed |
| `S3Correctness.ThrownPersistDecidesNothing` | src/artifact/s3-persistence.ts:214-219 | after a persist that throws, an object is there exactly when it was before or the put acted |
| `S3Correctness.PersistsAgree` | src/artifact/s3-persistence.ts:197-228 | two persists that return for one execution ID have one artifact, whatever mix of answers they met |
| `S3Correctness.RecoverExact` | src/artifact/s3-persistence.ts:255-313 | recovery yields an artifact exactly when both answers are complete and the object stored for the identity is what the builder produces for it |
| `S3Correctness.MissingExact` | src/recovery/phase49-artifact-reconciler.ts:93-97 | absence is concluded exactly when an answered head request finds nothing under a usable identity |
| `S3Correctness.PersistThenRecover` | src/artifact/s3-persistence.ts:250-313 | after a returned persist, in any store that only grew, recovery never concludes absence and yields nothing but that artifact; it does so exactly on complete answers and an identity without blank texts |
| `S3Witness.BlankPersistsAndIsRefused` | src/artifact/s3-persistence.ts:399-419 | for every execution ID there is an artifact that builds, that an undisturbed persist stores and confirms, and that recovery refuses whatever is answered |
| `S3Correctness.ReadBackExact` | src/artifact/s3-persistence.ts:230-248 | reading back by reference accepts exactly the artifact's own object at its own address |
| `EndToEnd.PersistIsProtocolSteps` | src/artifact/phase49-finalization.ts:73-85 | a persist over concrete objects is a put step and a head step of the protocol, with the matching result |
| `EndToEnd.RecoverIsProtocolSteps` | src/recovery/phase49-artifact-reconciler.ts:90-105 | a recovery over concrete objects is a head step and a get step of the protocol, with the matching result |
| `EndToEnd.ReachableStoreIsRepresented` | src/controller/phase49-5-runtime.ts:107-159 | in every reachable state of the production wiring there are stored objects that the protocol's store stands for |
| `EndToEnd.SuccessIsRecoverable` | src/controller/phase49-5-runtime.ts:107-159 | in every reachable state of the production wiring an issue at success carries a reference that parses to its deterministic key, and recovery by its recorded identity yields an artifact with the recorded outcome |
| `Truncation.TruncateUtf8` | src/agent-brief/requirements-fingerprint-compat.ts:305-318 | the loop over characters computes the specified truncation |
| `Truncation.TruncateFits` | src/agent-brief/requirements-fingerprint-compat.ts:305-318 | from a bound of three on, the result fits the bound |
| `Truncation.TruncateMeaning` | src/redmine/rejection-writer.ts:165-178 | a text that does not fit becomes its longest beginning of whole characters that leaves room for the ellipsis, and nothing else |
| `Truncation.TruncateIdempotent` | src/agent-brief/requirements-fingerprint-compat.ts:305-318 | truncating twice is truncating once |
| `Sanitizing.SanitizeDiagnostic` | src/redmine/rejection-writer.ts:137-163 | the loop over secrets computes the specified diagnostic or throws |
| `Sanitizing.DiagnosticIsSafe` | src/redmine/rejection-writer.ts:137-163 | a stored diagnostic is non-empty and fits 2048 bytes; it holds a configured secret exactly if the bound exposes one that ends with the ellipsis, or if it is the default text and that contains the secret |
| `Sanitizing.TruncationLeaksExactly` | src/agent-brief/requirements-fingerprint-compat.ts:348-359 | a secret a text does not contain appears after truncation exactly when the text exceeds the bound, the secret ends with the ellipsis, and the rest of it ends the whole characters that fit |
| `Sanitizing.BoundedTextLeaksExactly` | src/agent-brief/requirements-fingerprint-compat.ts:328-360 | the same for every raw text and every configured secret after sanitizing |
| `Sanitizing.NoSecretSurvives` | src/agent-brief/requirements-fingerprint-compat.ts:328-360 | bounded sanitized text holds no configured secret that does not end with the ellipsis |
| `Sanitizing.EllipsisSecretCanAppear` | src/agent-brief/requirements-fingerprint-compat.ts:348-359 | at every bound of more than three bytes a long enough text is cut into a secret it does not contain |
| `ProjectionState.TextState.SanitizeAndBound` | src/agent-brief/requirements-fingerprint-compat.ts:328-360 | returns the bounded text and records the path as redacted or truncated exactly when it was; throws without recording anything |
| `ProjectionState.GenerationInput.SyncMetadata` | src/agent-brief/requirements-fingerprint-compat.ts:536-542 | the metadata becomes the sorted recorded paths, and nothing else changes |
| `ProjectionState.GenerationInput.TruncateFinalBudgetCustomField` | src/agent-brief/requirements-fingerprint-compat.ts:563-588 | one field's values are reduced, and its path recorded exactly if that changed something |
| `ProjectionState.GenerationInput.EnforceFinalBudget` | src/agent-brief/requirements-fingerprint-compat.ts:590-625 | the four loops and the last cut compute the specified budget enforcement in place, or report that it throws |
| `ProjectionBudget.JournalsDropped` | src/agent-brief/requirements-fingerprint-compat.ts:594-597 | the oldest journals are dropped and counted, no more than needed |
| `ProjectionBudget.ChildrenDropped` | src/agent-brief/requirements-fingerprint-compat.ts:598-601 | the last children are dropped and counted, no more than needed |
| `ProjectionBudget.RelationsDropped` | src/agent-brief/requirements-fingerprint-compat.ts:602-605 | the last relations are dropped and counted, no more than needed |
| `ProjectionBudget.FieldsTruncated` | src/agent-brief/requirements-fingerprint-compat.ts:606-613 | values are reduced from the last field down, only while nothing fits, and stop as soon as it does |
| `ProjectionBudget.EnforceMeaning` | src/agent-brief/requirements-fingerprint-compat.ts:590-625 | for any measure of size: what is returned fits with its final metadata, a later class is touched only when the earlier ones are empty, the description only when every value is reduced, and no recorded path is forgotten |
| `ProjectionBudget.EnforceThrows` | src/agent-brief/requirements-fingerprint-compat.ts:622-624 | enforcement that throws has emptied all lists, reduced every value and cut the description, in vain |
| `ProjectionCorrectness.SelectionIsNewest` | src/agent-brief/requirements-fingerprint-compat.ts:428-460 | the selected journals are the newest ones with notes, at most ten, in time order |
| `ProjectionCorrectness.NotesProjected` | src/agent-brief/requirements-fingerprint-compat.ts:447-457 | every note keeps its journal's ID and time and holds its sanitized, bounded text |
| `ProjectionCorrectness.RelationsProjected` | src/agent-brief/requirements-fingerprint-compat.ts:462-489 | relations project one by one, and all of them or none |
| `ProjectionCorrectness.ProjectionMeaning` | src/agent-brief/requirements-fingerprint-compat.ts:115-216 | a returned projection serializes to at most 24576 bytes; kept and omitted entries account for every source entry; kept journals are the newest in time order, kept relations and children the first in their order; it was cut only as the budget allows |
| `ProjectionSecrecy.ProjectionIsClean` | src/agent-brief/requirements-fingerprint-compat.ts:115-216 | no text that people wrote holds, in a returned projection, a configured secret that does not end with the ellipsis, also after the budget's second cut |
| `ProjectionPaths.NotePathsDenote` | src/agent-brief/requirements-fingerprint-compat.ts:428-460 | a note path is recorded exactly for a cut note, by its place among the journals first selected; the kept notes are the last of those |
| `ProjectionOrder.ProjectionIsOrderIndependent` | src/agent-brief/requirements-fingerprint-compat.ts:390-534 | permuting custom fields, journals, relations and children changes neither the projection nor whether it throws |
| `ProjectionOrder.FingerprintIsOrderIndependent` | src/agent-brief/requirements-fingerprint-compat.ts:218-262 | nor does it change the fingerprint |
| `ProjectionGrowth.PrettyWeight` | src/agent-brief/requirements-fingerprint-compat.ts:544-550 | the bytes of an indented print are the sum of the bytes of its parts |
| `ProjectionGrowth.TruncationGrowsExactly` | src/agent-brief/requirements-fingerprint-compat.ts:606-613 | truncating a custom field makes the serialized input longer exactly when the value is reduced, its path is not recorded yet, and the quoted bytes saved are fewer than those the path takes |
| `ProjectionGrowth.DescriptionGrowsExactly` | src/agent-brief/requirements-fingerprint-compat.ts:614-621 | the same for cutting the description |
| `ProjectionGrowth.BudgetCanGrow` | src/agent-brief/requirements-fingerprint-compat.ts:590-613 | for every input with a full description of control characters, one field of four letters and nothing to drop, enforcement exceeds the budget, truncates the field and makes the serialized form longer |
| `ProjectionGrowth.DescriptionCanGrow` | src/agent-brief/requirements-fingerprint-compat.ts:590-624 | for every input with a description of 257 letters, one field that lists two thousand letters and nothing to drop, enforcement comes to the description still over budget, and the cut makes the serialized form longer; it throws |
| `ProjectionGrowth.GrownDescriptionThrows` | src/agent-brief/requirements-fingerprint-compat.ts:614-624 | for any input: when enforcement comes to the description over budget and the cut saves fewer bytes than its new path takes, enforcement throws |
| `Capture.BoundedUtf8Capture.Append` | src/sandbox/resource-policy.ts:22-39 | what is kept is the beginning of everything offered, up to the bound, and the flag says exactly whether anything is missing |
| `Capture.BoundedUtf8Capture.Snapshot` | src/sandbox/resource-policy.ts:41-47 | the snapshot shows the kept bytes decoded as a whole, their number and the flag |
| `ChangeSet.ParseTrackedNameStatus` | src/development/change-set.ts:121-141 | succeeds exactly on an even number of tokens with non-empty codes and paths inside the workspace, and returns them in order |
| `ChangeSet.ParseNulPaths` | src/development/change-set.ts:143-152 | returns the listed paths, or throws if one leaves the workspace |
| `ChangeSet.MergeChangedFiles` | src/development/change-set.ts:154-166 | fails exactly on a repeated path and otherwise sorts both lists together |
| `ChangeSet.RunGit` | src/development/change-set.ts:203-233 | the observation is the bounded capture of all chunks, if the process started and exited as accepted |
| `ChangeSet.GitChangeSetCollector.CapturePatch` | src/development/change-set.ts:82-106 | the patch captures the tracked diff and the diffs of all untracked files in list order |
| `ChangeSet.GitChangeSetCollector.CollectChanges` | src/development/change-set.ts:53-108 | collects exactly the specified files and patch, or throws where one part does |
| `ChangeSetCorrectness.TokensOfTerminated` | src/development/change-set.ts:121-125 | a list of NUL-terminated texts is read back as it was written |
| `ChangeSetCorrectness.NameStatusRoundTrip` | src/development/change-set.ts:121-141 | a written name-status list is read back entry for entry, exactly when every entry is usable |
| `ChangeSetCorrectness.OddListRejected` | src/development/change-set.ts:126-128 | a list with an odd number of tokens is never accepted |
| `ChangeSetCorrectness.MergeMeaning` | src/development/change-set.ts:154-166 | a merge is a sorted, duplicate-free permutation of both lists, or fails, and that exactly on a repeated path |
| `ChangeSetCorrectness.PatchIsCompleteOrFlagged` | src/development/change-set.ts:82-119 | for valid UTF-8 output the patch is flagged exactly when all diffs together exceed the bound, and unflagged it is their exact concatenation |
| `ChangeSetCorrectness.PatchIsReencoded` | src/development/change-set.ts:82-119 | whatever git wrote, the patch is flagged exactly when the re-encoded diffs together exceed the bound, and unflagged it is their concatenation |
| `ChangeSetCorrectness.NothingIsDroppedSilently` | src/development/change-set.ts:111-119 | diffs that exceed the bound are flagged, whatever their encoding |
| `ChangeSetCorrectness.PatchIsExact` | src/development/change-set.ts:82-119 | an unflagged patch encodes to the exact concatenation of all diffs if and only if git wrote every one of them as valid UTF-8 |
| `ChangeSetCorrectness.StrayBytesAreReplaced` | src/development/change-set.ts:111-119 | stray bytes between a valid beginning and end count three times each and come back as replacements |
| `ChangeSetCorrectness.AddedLineWitness` | src/development/change-set.ts:111-119 | of two diffs that add a line of stray bytes, both within fifty bytes, one comes back changed and unflagged, the other is flagged |
| `ChangeSetCorrectness.CompletePatchOrNoArtifact` | src/artifact/contract.ts:311-327 | any artifact that builds from a collection holds all re-encoded diffs within the bound, and their exact concatenation if and only if they are valid UTF-8 |
| `SandboxHandle.DockerSandboxHandle.OnDispose` | src/sandbox/docker-runtime.ts:211-236 | after any events the first call disarms the timers, aborts and leaves exactly one removal requested, and any other only records its return; at most one removal and one workspace disposal ever happen |
| `SandboxHandle.DockerSandboxHandle.OnDiskChecked` | src/sandbox/docker-runtime.ts:238-271 | an over-full disk of an undisposed handle aborts and joins the one removal, after any events |
| `SandboxHandle.DockerSandboxHandle.OnWorkspaceAnswered` | src/sandbox/docker-runtime.ts:228-235 | the call that carried the disposal out settles normally exactly if container and workspace are gone |
| `SandboxHandle.DockerSandboxHandle.Enforce` | src/sandbox/docker-runtime.ts:252-271 | enforcement aborts and joins the removal unless the handle is disposed |
| `SandboxHandle.DockerSandboxHandle.StartRemoval` | src/sandbox/docker-runtime.ts:273-285 | only the first caller issues the removal; every other one waits for it |
| `SandboxHandle.DisposalOnce` | src/sandbox/docker-runtime.ts:184-285 | over every interleaving at most one `rm -f` and one workspace disposal; one call carries the disposal out and returns normally exactly when both succeeded |
| `SandboxHandle.NothingAfterDisposal` | src/sandbox/docker-runtime.ts:211-271 | once a disposal is over, nothing later removes or disposes anything again |
| `SandboxHandle.EnforcementActs` | src/sandbox/docker-runtime.ts:238-271 | in any reachable state of an undisposed handle an over-full disk or an armed lifecycle timer aborts the run and leaves exactly one removal requested |
| `SandboxHandle.DisposalCompletes` | src/sandbox/docker-runtime.ts:211-236 | whatever preceded the first call, its answers settle it with exactly one removal and one workspace disposal, normally exactly if both succeeded |
| `SandboxHandle.LaterDispose` | src/sandbox/docker-runtime.ts:211-214 | every call after the first only records an early return, and container and workspace are gone exactly if the first one's normal return is on record |
| `SandboxHandle.SecondDisposeReturnsEarly` | src/sandbox/docker-runtime.ts:211-214 | such a call exists: it returns while the removal is pending |
| `AgentRunner.DockerCodexOneShotRunner.OnTimeout` | src/agent/codex-cli-adapter.ts:189-206 | after any events, a timeout of a spawned, unsettled run leaves exactly one process kill and the first abort reason; before the process is spawned it has no effect; a settled run keeps its result |
| `AgentRunner.DockerCodexOneShotRunner.OnEnforcement` | src/agent/codex-cli-adapter.ts:189-207 | the same for the sandbox's enforcement |
| `AgentRunner.DockerCodexOneShotRunner.OnClosed` | src/agent/codex-cli-adapter.ts:218-237 | after any events, a close settles an unsettled run as completed exactly if nothing aborted it, and otherwise leaves it to settle as aborted; never a second settlement |
| `AgentRunner.DockerCodexOneShotRunner.Settle` | src/agent/codex-cli-adapter.ts:180-188 | only the first settlement counts |
| `AgentRunner.SettlesOnce` | src/agent/codex-cli-adapter.ts:168-242 | over every order of events at most one settlement, one process kill and one container kill, the latter exactly for a timeout; an aborted result carries the first reason; a completed one means nothing aborted |
| `AgentRunner.AbortWins` | src/agent/codex-cli-adapter.ts:189-207 | an abort that meets a spawned, unsettled run keeps its reason, or an earlier one, for good and the run never completes |
| `AgentRunner.EnforcementCountsExactly` | src/agent/codex-cli-adapter.ts:146-207 | for every unsettled run: after an enforcement no continuation completes, and none is reported as a success, if and only if the process had been spawned |
| `AgentRunner.EarlyEnforcementIsLost` | src/agent/codex-cli-adapter.ts:146-207 | such a run: an enforcement while the container starts, then an ordinary exit with zero, is reported as a success with no abort on record |
| `AgentRunner.SettlementIsFinal` | src/agent/codex-cli-adapter.ts:180-188 | nothing after the settlement changes the result |
| `AgentRunner.UndisturbedRunCompletes` | src/agent/codex-cli-adapter.ts:204-237 | a process that only writes and closes is reported as completed with its exit code and the bounded captures of all it wrote, and nothing is killed |
| `AgentRunner.ClassifiedRun` | src/agent/codex-cli-adapter.ts:62-123 | success is reported exactly for an unaborted run that exited with zero and passed its checks, a timeout exactly for a run aborted by the timeout |

## Left out

- Address.ParseReference: covers references made of the characters that bucket names and key prefixes can contain, without dot segments; general URL parsing, percent escapes and the exclusion of dotted-quad bucket names are not modelled.
- Preparation.Judge: the handoff validator, the revalidator, the source resolver and the formal gate are ports with arbitrary answers; the wording of the diagnostics that preparation itself composes is one arbitrary text, already sanitized.
- Controller.AgentController.PrepareSandbox: workspace creation, the disk check and sandbox creation are one arbitrary success or failure; the checkout's identity checks are exact.
- Controller.AgentController.Restart: a crash inside a call is a step of `Protocol` only; the object restarts between calls.
- Controller.AgentController.Serve: the abort signal is a number of polls, and sleeping has no effect.
- Protocol.TaskStep: an inspection may skip for any reason; which candidates are eligible is stated by the controller.
- AgentRunner.ClassifiedRun: redaction of captured output, the prompt and the process arguments are not modelled, and the wording of the runner's own diagnostics is arbitrary.
- Sanitizing.Sanitize: the credential-syntax replacements are an arbitrary rewrite of the text; only configured secrets and the final check are exact.
- Projection.Project: which field names count as sensitive is an arbitrary test; numbers are integers.
- Json.ParseJson: a number with a fraction or an exponent is one opaque value, which no document accepts.
- Redmine field names are constructors of a datatype, and clock readings are valid timestamps.
- HTTP, AWS SDK, Docker CLI and git process plumbing: only the outcomes the code distinguishes appear.
- Environment parsing and composition: wiring without invariants; the one production wiring that matters is `EndToEnd.Deployment`.
- Brief approval, frontmatter and repository policy: answers of the handoff and revalidation ports.
- Docker isolation inspection, network policy, disk measurement and orphan cleanup: checks over foreign data.
- Diagnostic sinks and messages: they decide nothing, except that a sink that throws counts as a failure.
- Real time, polling intervals and liveness under endless faults: timers are events that may fire at any moment.
- `src/verification`, the development walking skeleton and the first-write verifier: evidence for releases, not behaviour of the system.
