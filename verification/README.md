# Verified model of the Floatile widget host

This project models the parts of the Floatile desktop-widget host where correctness depends on many steps
taken together, and proves properties of them for every input, every run and every interleaving:

- **Trusted installs** (`Install`, `InstallRun`, `InstallSafety`, `InstallProgress`, `InstallHistory`, `InstallLeaks`, `InstallExample`). Installing a signed package is a
  journaled two-phase commit over a directory tree and a trust database. The machine takes one file or
  database operation at a time; a crash, a failed operation or a change of publisher trust can come after
  any of them, also inside recovery.
- **Hosted operations** (`Operation`, `OperationLocal`, `OperationSteps`, `OperationSafety`, `OperationRuns`,
  `OperationHistory`, `OperationChoices`, `OperationProgress`, `Cancellation`, `Bridge`, `Actor`). Submitters, a bounded queue, a dispatcher that takes a permit before a job, tasks,
  cancellers, result takers and the completion relay interleave freely, one mutex section or channel
  operation at a time. Each operation also has a small automaton; one event of the system is one move of
  every operation's automaton, and the invariants are proved there.
- **Permissions** (`Capability`, `Distribution`, `Planning`, `BrokerCalls`, `Signature`). A grant means the set of requests it allows; the
  syntactic comparisons that planners and the broker use are proved against that meaning, and the grants of
  an instance against the calls the broker carries out for it.
- **Encodings, patches, State** (`Encoding`, `Patch`, `UiState`). Digest and signature preimages with decoders that
  invert them, JSON Merge Patch against the recursive algorithm of section 2 of RFC 7386, and the State
  machine behind `update_state`.
- **Bounded services** (`Limiter`, `Timer`, `TimerRuns`, `TimerDelivery`, `Https`, `HttpsRuns`). Fixed-window rate limits, timer slots and the delivery of
  timer events, and the HTTPS cache and retry loop shared by any number of runs.
- **Code generation and forms** (`RenderText`, `Identifiers`, `Renderer`, `RendererScope`, `RendererLoops`,
  `RendererOutline`, `RendererNames`, `RendererAccepts`, `RendererExamples`, `Forms`). Which UI trees are accepted, what
  the generated code says of them in document order, its scoping, its string literals and names as they read back
  from the text, and the round trip of an instance configuration through its form.

`Prelude` holds the shared vocabulary. Check everything with `dafny verify dfyconfig.toml`.

## Where the code differs from what its comments or names suggest

Each point is a theorem below, with the exact condition where there is one.

- A package that itself contains a file named `install.json` passes validation and install, but its written
  directory can never be loaded again (`Install.LoadWrittenOut`). If the host crashes between the rename
  and the acceptance of such a package, every later trusted install is blocked for good
  (`InstallSafety.BlockedForever`); the state is reachable (`InstallExample.BlockedIsReachable`). Without any
  crash the plugin itself is stuck: no other version of it can ever be installed (`InstallLeaks.StuckForever`,
  reached by `InstallExample.InstallFullySticks`).
- A process that crashes or gives up before `prepare_install` leaves a staging directory that no journal entry names.
  Nothing ever removes it: a directory left behind stays for good exactly when the journal does not name it
  (`InstallLeaks.LeftForeverIffUnjournaled`), and a crash after the first file of any install does it
  (`InstallExample.CrashWhileWritingLeaks`).
- `cancel` answering Ok does not mean the operation ends Cancelled: one in the middle of a poll, or with a value, can
  still succeed, and no other can (`OperationRuns.CancelOutcome`). One between two polls can only end
  Cancelled (`OperationRuns.ParkedEndsCancelled`).
- The second check of the flag in `Cancellation::cancelled` is necessary: `Cancellation.LostWithoutRecheck` shows a lost
  wake-up without it.
- `narrow_instance` accepts two shapes of instance grants that widen the plugin's authority
  (`Capability.NarrowingIsInclusion`, `Capability.NarrowingWidens`).
- Manifests may declare a capability twice. The planners then read the last declaration, `authorize` looks at the first
  (`Distribution.PlannerSeesBrokerAuthority`), and the services behind it take their quotas from the last grant that
  carries one (`BrokerCalls.BrokerQuotas`). So an upgrade can gain a call without confirmation
  (`Distribution.DuplicateHidesExpansion`, `BrokerCalls.DuplicateHidesCall`), and on the other hand a larger first
  declaration need not gain any: under the timer grants (10, 10) and then (1, 1) an instance can do no more than under
  (1, 1) alone (`BrokerCalls.DecidedMoreButNoNewCall`). Between coherent manifests, for instance those without
  duplicates, the planners' guarantees hold of `authorize` and of the calls; for any two manifests, `authorize` allows
  nothing new exactly when the first declarations compare (`Distribution.DecidedWithinIffFirsts`), and no new call is
  carried out exactly when first grants and last quotas do (`BrokerCalls.CallsWithinIffFirstsAndLasts`).
- `update_state` answering QueueFull has already committed the new State (`UiState.QueueFullStillCommits`); the UI shows
  the current State exactly when the last commit had room (`UiState.ShownIffLastCommitHadRoom`).
- A timer whose event the full actor queue refuses keeps its slot until it is cancelled; after `max_active` of them no
  timer can be scheduled (`TimerRuns.DroppedExhaustSlots`).
- A fixed-window limit of `max` admits up to `2 * max` within one window length, and no more; the bound is reached
  (`Limiter.SlidingBound`, `Limiter.BurstReachesBound`).
- Submitting an instance form unchanged can change the configuration: an integer in a number field comes back as a
  float, absent properties with a default are filled in, and without any schema the configuration is emptied
  (`Forms.FormRoundTrip` has the exact condition).
- Property names, loop keys and item names are written into the generated text as they are, and State paths, keys and item
  names may hold almost any character. Every name in the text of an accepted tree reads back as the one name it is
  exactly when bound fields have word characters only and the item names and keys shown are identifiers
  (`RendererNames.NamesReadBackIffPlain`). A tree that uses `a;b` for all three is accepted, and its reference to
  `prop_a;b` reads as `prop_a` (`RendererExamples.BrokenNamesAreAccepted`).
- An item binding is generated as its bare name, while a `ForEach` makes only `item` and its key visible. Whatever other
  names mean something by themselves, the names of an accepted tree all work exactly when the tree is plain in the sense
  above and each item name shown is visible (`RendererNames.LoopNamesResolve`); a template that shows any other field
  is accepted and does not work (`RendererExamples.FieldNamesAreUndeclared`).
- Validation takes the item binding `value` for the element and any other for a path in it
  (crates/floatile-ui-schema/src/validate.rs:304-315). The generated text never denotes that
  (`RendererNames.ItemsNeverMeanTheirField`): a bare name is the element only as `item`, and otherwise the index of the
  nearest loop with that key (`RendererNames.LookupMeans`). The documented loop, keyed by `value` and showing `value`,
  shows the index (`RendererExamples.DocumentedLoopShowsIndex`).
- The array of a `ForEach` is declared as a string, so code with a loop is never well typed
  (`RendererLoops.LoopArraysAreStrings`).
- Two State paths can get the same generated property name: a tree binding `$.a_b` and `$.a.b` is accepted and declares
  one name twice (`RendererExamples.PropertyDeclaredTwice`, `RendererScope.PropertyNamesAreDistinct`).

## Model

| member | source | states |
|---|---|---|
| Install.LoadWrittenOut | crates/floatile-store/src/installation.rs:203-246 | a fully written package directory loads back, with exactly its own files, if and only if the package held no file named install.json |
| Install.LoadIff | crates/floatile-store/src/installation.rs:203-246 | any directory loads exactly when it holds, unchanged, every file of a validated package under that package's metadata |
| Install.ConfirmsIff | crates/floatile-cli/src/install.rs:320-366 | any directory, tampered with or not, confirms a journal entry exactly when it holds unchanged a package with the journaled publisher and both digests that verifies now |
| Install.Host.RecoverTrustedInstalls | crates/floatile-cli/src/install.rs:302-381 | the recovery loop, entry by entry, equals the recovery function on the whole disk, including where it stops and what it reports |
| InstallRun.PlayInv | crates/floatile-cli/src/install.rs:169-275 | the protocol invariant holds in every run of installs and recoveries with a crash, failure or trust change after any operation |
| InstallSafety.CrashSafety | crates/floatile-cli/src/install.rs:195-274 | in every run at most one intent is pending, it never has staging and final directory together, a final directory is the journaled one, and every final directory is absent or a complete package |
| InstallSafety.DurableForever | crates/floatile-store/src/trust.rs:254-350 | through any later crashes and recoveries, accepted versions only rise, keep their digests, and installed directories never change |
| InstallSafety.InstalledIsAccepted | crates/floatile-store/src/trust.rs:426-446 | once no intent is pending, every installed version is at or below its publisher's accepted mark |
| InstallHistory.AcceptedIsInstalled | crates/floatile-store/src/trust.rs:254-350 | in every run each accepted mark has the directory of its version in place: a complete package of the mark's publisher and plugin whose signed contents are the accepted ones |
| InstallHistory.InstalledWasVerified | crates/floatile-cli/src/install.rs:169-232 | in every run each installed directory is a complete package, and at an earlier moment its publisher was trusted and a trusted, unrevoked key of it had signed exactly these contents |
| InstallSafety.CommitIsGated | crates/floatile-cli/src/install.rs:195-232 | a package about to be renamed into place was checked as an upgrade of the highest installed version: it does not lower the storage migration; without consent it gains no authority as planned, and neither a decision nor a call of the broker if both manifests are coherent; in any case it gains no decision exactly when first declarations compare, and no call exactly when first grants and last quotas do |
| InstallSafety.ConfirmsIffEndorsed | crates/floatile-cli/src/install.rs:320-366 | recovery confirms a renamed entry exactly when its directory loads and its package still verifies under the publisher's current trust |
| InstallSafety.EntryConverges | crates/floatile-cli/src/install.rs:306-380 | an entry is finalized exactly when its rename happened and it confirms, aborted exactly when no rename happened, and otherwise recovery stops with the disk unchanged |
| InstallSafety.RecoveryConverges | crates/floatile-cli/src/install.rs:302-381 | from every reachable state recovery succeeds exactly when each renamed entry is endorsed; then the journal is empty, finalized plus aborted is the pending count, and a second run changes nothing |
| InstallSafety.InterruptedRecovery | crates/floatile-cli/src/main.rs:998-1000 | however often recovery is interrupted, the one that completes leaves the disk of a single uninterrupted run |
| InstallSafety.RecoveryCanComplete | crates/floatile-cli/src/install.rs:302-381 | with trust at rest and nothing failing, one recovery process reaches the settled disk |
| InstallProgress.InstallCanComplete | crates/floatile-cli/src/install.rs:169-275 | from every reachable idle state with endorsed entries, some run of successful events recovers and installs any validated, verified package that is newer than all accepted and installed versions of its publisher and plugin and whose plan is made: its directory is in place, the mark is its version and signed contents, the journal is empty |
| InstallProgress.FailedWriteCleansUp | crates/floatile-cli/src/install.rs:225-252 | a failed write or a refused journal entry takes the staging directory away and changes nothing else |
| InstallProgress.FailedRenameCleansUp | crates/floatile-cli/src/install.rs:253-257 | a failed rename takes away the staging directory and its journal entry and changes nothing else |
| InstallProgress.PreparedIff | crates/floatile-store/src/trust.rs:532-543 | a complete staging is journaled exactly when its publisher is trusted and not revoked and there is no mark, a lower one, or this version's with these contents |
| InstallProgress.JournaledIsAbove | crates/floatile-store/src/trust.rs:324-349 | in every run the journal never names a package below its mark, or another one at it |
| InstallSafety.BlockedForever | crates/floatile-cli/src/install.rs:320-366 | a crash after the rename of a package holding install.json blocks every later trusted install, whatever happens |
| InstallExample.InstallAndCrashBlocks | crates/floatile-cli/src/install.rs:235-274 | from an empty host, installing such a verified package and crashing after the rename reaches the blocked state |
| InstallExample.BlockedIsReachable | crates/floatile-cli/src/install.rs:235-274 | a concrete package and run that reach it |
| InstallLeaks.OrphanForever | crates/floatile-cli/src/install.rs:302-381 | no event ever touches a staging directory the journal does not name and no process works on |
| InstallLeaks.LeftForeverIffUnjournaled | crates/floatile-cli/src/install.rs:302-336 | with no process running, a staging directory stays for good exactly when it is not journaled |
| InstallExample.CrashWhileWritingLeaks | crates/floatile-cli/src/install.rs:430-494 | a crash after the first file of any verified install leaves such a directory |
| InstallLeaks.StuckIffHeldMetadata | crates/floatile-store/src/installation.rs:137-166 | the highest installed version cannot be loaded exactly when its package held install.json |
| InstallLeaks.StuckForever | crates/floatile-cli/src/install.rs:206-221 | a plugin whose highest version cannot be loaded never gets another version, and every later install of it is refused |
| InstallExample.InstallFullySticks | crates/floatile-cli/src/install.rs:169-274 | a complete install of a package holding install.json reaches that state without any crash |
| Operation.SharedState.Cancel | crates/floatile-services/src/operation.rs:369-383 | Ok exactly for a live operation of that capability; raises that flag and no other |
| Operation.SharedState.CancelAll | crates/floatile-services/src/operation.rs:312-318 | raises exactly the flags of the live operations and counts them |
| Operation.SharedState.Take | crates/floatile-services/src/operation.rs:391-417 | the stored value for its own capability and type, and which of the three errors exactly when; nothing changes unless the value is handed out |
| Operation.SharedState.Discard | crates/floatile-services/src/operation.rs:302-304 | removes that result and says whether it was there |
| Operation.SharedState.Settle | crates/floatile-services/src/operation.rs:474-491 | a fault ends as it is; a value is stored for the job's capability and succeeds exactly when the store has room, and is dropped otherwise |
| OperationLocal.MoveKeepsLifecycle | crates/floatile-services/src/operation.rs:320-367 | every move of one operation keeps it in exactly one stage, and the active map holds exactly the live stages |
| OperationLocal.MoveKeepsLedger | crates/floatile-services/src/operation.rs:474-501 | every move keeps the per-operation ledger: one success, spent at most one way |
| OperationLocal.MoveKeepsCompletion | crates/floatile-services/src/operation.rs:492-501 | every move keeps exactly one whereabouts for a completion |
| OperationLocal.MoveKeepsFirstRun | crates/floatile-services/src/operation.rs:460-473 | every move keeps late or early-cancelled jobs unpolled and doomed to their failure |
| OperationSteps.StepSimulates | crates/floatile-services/src/operation.rs:320-511 | one event of the whole system is one enabled move of every operation's automaton |
| OperationSafety.StepKeepsInv | crates/floatile-services/src/operation.rs:420-501 | every event keeps the system invariant: the local ones, ordering of queue and channel, permits, bounds and ledger totals |
| OperationSafety.PlayInv | crates/floatile-services/src/operation.rs:320-511 | the invariant holds in every run |
| OperationRuns.Lifecycle | crates/floatile-services/src/operation.rs:320-367 | a submitted operation is in exactly one of submitting, accepted, rejected; an accepted one in exactly one of queued, running, completed; a rejected or completed one is not live |
| OperationRuns.Capacities | crates/floatile-services/src/operation.rs:420-451 | queued, running, buffered and retained counts never exceed their limits |
| OperationRuns.IdsAreFresh | crates/floatile-services/src/operation.rs:504-511 | an id drawn by a submit was never drawn before and is nowhere in the system |
| OperationRuns.FirstRunDecides | crates/floatile-services/src/operation.rs:460-473 | a job first run at or past its deadline is never polled and ends Timeout; one cancelled before its first run is never polled and ends Timeout or Cancelled |
| OperationRuns.Ledger | crates/floatile-services/src/operation.rs:474-501 | an operation's success is exactly one of stored, taken, discarded, removed; a stored result keeps its submit-time capability |
| OperationRuns.LedgerTotals | crates/floatile-services/src/operation.rs:474-501 | successes equal stored plus taken plus discarded plus removed |
| OperationRuns.TakeNeedsOwner | crates/floatile-services/src/operation.rs:391-417 | a result is handed out only to its submit-time capability, only after a success and only once |
| OperationRuns.CompletionWhereabouts | crates/floatile-runtime/src/lib.rs:378-410 | each completion is in exactly one place; a refused or unsent one left no result; a stored result always has a completion somewhere |
| OperationRuns.CompletionsAreTruthful | crates/floatile-services/src/operation.rs:493-501 | completions in flight carry the terminal and the capability of their operation |
| OperationRuns.Quiescence | crates/floatile-services/src/operation.rs:420-451 | with nothing submitting, queued or running, nothing is live, every permit is back and every accepted operation completed |
| OperationRuns.EveryAcceptedCanComplete | crates/floatile-services/src/operation.rs:420-501 | from every reachable state the dispatcher, the spawned jobs and the relay alone can complete every accepted operation, each with a terminal, at instants no earlier than those already used |
| OperationRuns.CancelOutcome | crates/floatile-services/src/operation.rs:460-473 | after an accepted cancel the operation may still succeed if and only if its work was in the middle of a poll, had given a value, or had succeeded, and results can be retained |
| OperationRuns.ParkedEndsCancelled | crates/floatile-services/src/operation.rs:463-472 | a job cancelled between two polls has no other terminal than Cancelled, whatever happens |
| OperationHistory.TerminalIffEnded | crates/floatile-services/src/operation.rs:453-501 | an operation has a terminal exactly when the one event that decided it was settled: the fault it gave, or success or drop of its value by the room found then |
| OperationHistory.StoredIffAvailable | crates/floatile-services/src/operation.rs:474-491 | a result is there exactly when its job's work gave that value, it found room, and nothing took, discarded or removed it since; it is there for the submit-time capability |
| OperationHistory.TakeAnswers | crates/floatile-services/src/operation.rs:391-417 | at any moment of any run, exactly when a take answers which value and which of the three errors, by the events before it |
| OperationChoices.FirstRunChoice | crates/floatile-services/src/operation.rs:460-473 | a spawned job times out exactly from its submit-time deadline on; before it, ends cancelled exactly when a cancel was asked for and starts its work exactly when none was |
| OperationChoices.NextPollChoice | crates/floatile-services/src/operation.rs:463-472 | between two polls a job ends cancelled exactly when a cancel was asked for |
| OperationChoices.InPollChoice | crates/floatile-services/src/operation.rs:463-472 | in a poll a job may give any outcome or wait, and times out exactly from its deadline on |
| OperationProgress.SendChoice | crates/floatile-services/src/operation.rs:344-367 | a registered submission is sent exactly while the dispatcher lives and the queue has room |
| OperationProgress.OperationCanSucceed | crates/floatile-services/src/operation.rs:320-511 | while the registry is open, from every reachable state some run submits a new operation, lets its work give any value, and ends with it stored as a success |
| Cancellation.NoLostWakeup | crates/floatile-services/src/operation.rs:162-176 | a waiter on a raised flag can return, or a broadcast that wakes it is still to come |
| Cancellation.WaiterReturns | crates/floatile-services/src/operation.rs:167-176 | after a completed cancel every waiter returns within two of its own steps |
| Cancellation.ReturnMeansCancelled | crates/floatile-services/src/operation.rs:167-176 | a waiter returns only after some cancel stored the flag |
| Cancellation.LostWithoutRecheck | crates/floatile-services/src/operation.rs:171-174 | without the second check a waiter can sleep through the only broadcast |
| Bridge.Broker.WithOperations | crates/floatile-services/src/broker.rs:144-157 | a registry is attached exactly when plugin, instance and generation agree |
| Bridge.Broker.AuditCompletion | crates/floatile-services/src/broker.rs:517-540 | records exactly the completions of the attached registry's owner |
| Bridge.Broker.DiscardResult | crates/floatile-services/src/broker.rs:543-547 | drops that result only |
| Bridge.CompletionBridge.TryRoute | crates/floatile-runtime/src/operation.rs:40-79 | each disposition exactly when, and the queue, the registry and the audit after routing one completion |
| Bridge.NewBridge | crates/floatile-runtime/src/operation.rs:28-38 | a bridge is made exactly when it has room for a completion |
| Bridge.OnlyCurrentCompletions | crates/floatile-runtime/src/operation.rs:40-79 | in every run the actor's queue holds only completions of its own identity, within capacity |
| Bridge.LostResultsAreGone | crates/floatile-runtime/src/operation.rs:45-79 | a completion that was not delivered leaves no result, then or later, while other operations settle and store theirs |
| Bridge.SettledFirst | crates/floatile-runtime/src/operation.rs:40-79 | results are stored only for settled operations, and completions routed only after |
| Bridge.DeliveredKeepsResult | crates/floatile-runtime/src/operation.rs:45-79 | in every run, once a completion was delivered its result is there exactly when it was stored before and no one has taken it since |
| Bridge.ActorReceivesAccepted | crates/floatile-runtime/src/operation.rs:45-79 | in every run a live actor takes the completions routed to it with room, in order and each once |
| Actor.RunActor | crates/floatile-runtime/src/lib.rs:458-550 | which commands are taken, the guest calls, the replies, the completed timers, the discarded results and the outcome |
| Actor.Handle | crates/floatile-runtime/src/lib.rs:460-536 | what each command asks of the guest and answers, and when it fails |
| Actor.Drain | crates/floatile-runtime/src/lib.rs:654-666 | every waiting caller is answered with a failure |
| Actor.LoopTookIsUnique | crates/floatile-runtime/src/lib.rs:460-536 | handling ends at the first failure or Shutdown: the number of handled commands is determined |
| Actor.LoopGoesOnWhileFine | crates/floatile-runtime/src/lib.rs:460-541 | the loop goes on exactly over commands that are no Shutdown and whose guest call, if they ask for one, succeeded |
| Actor.EveryCallServes | crates/floatile-runtime/src/lib.rs:460-536 | the guest gets one call for each command that asks for one and has a budget, the call it asks for, in order |
| Actor.RepliesTell | crates/floatile-runtime/src/lib.rs:461-497 | each Start and Event is told whether its own call was accepted, rejected or failed |
| Actor.DiscardsAreForeign | crates/floatile-runtime/src/lib.rs:560-567 | a result is discarded exactly for a completion of another capability |
| Actor.OkIffShutdownFirst | crates/floatile-runtime/src/lib.rs:543-549 | the run is Ok exactly when a Shutdown comes before any failure |
| Actor.NoSetupCalls | crates/floatile-runtime/src/lib.rs:458-543 | no handled command constructs or stops the guest |
| Actor.OneReplyEach | crates/floatile-runtime/src/lib.rs:654-666 | every Start and Event taken, also by the drain, is answered exactly once and in order |
| Actor.TimersDoneAreFine | crates/floatile-runtime/src/lib.rs:498-516 | timers are completed exactly for the timer events that succeeded |
| Capability.DecideReflexive | crates/floatile-core/src/capability.rs:655-761 | every grant allows the request equal to itself |
| Capability.ParamsWithinIsInclusion | crates/floatile-core/src/distribution.rs:265-326 | the planner's comparison holds exactly when every request allowed under the candidate is allowed under the current grant |
| Capability.ParamsWithinPreorder | crates/floatile-core/src/distribution.rs:265-326 | it is reflexive and transitive |
| Capability.NarrowingIsInclusion | crates/floatile-core/src/capability.rs:783-837 | the narrowing comparison means inclusion exactly outside two widening shapes |
| Capability.NarrowingWidens | crates/floatile-core/src/capability.rs:783-837 | both shapes occur, with a request only the instance allows |
| Capability.Find | crates/floatile-core/src/capability.rs:320-322 | the first grant of the capability, if any |
| Capability.NarrowInstance | crates/floatile-core/src/capability.rs:764-781 | accepts the whole list exactly when each grant passes, else reports the first offender |
| Capability.NarrowedInstanceAttenuates | crates/floatile-core/src/capability.rs:764-837 | an accepted list attenuates a capability exactly when its effective grant has neither widening shape |
| Capability.MergeInherent | crates/floatile-services/src/broker.rs:58-81 | adds each missing inherent capability without parameters behind the others and changes no other decision |
| Capability.ExistingGrantAuthorizes | crates/floatile-services/src/broker.rs:185-197 | succeeds exactly when the capability is granted |
| Capability.DenyReasons | crates/floatile-core/src/capability.rs:655-761 | why a request is denied: no grant, other kind of parameters, a request for less would be allowed, or a scope outside the grant's |
| Distribution.ParsedIsLastGrant | crates/floatile-core/src/distribution.rs:248-263 | the planner's view of a manifest keeps the last declaration of each capability |
| Distribution.PlannerSeesBrokerAuthority | crates/floatile-core/src/distribution.rs:248-263 | planner and broker agree on a capability exactly when its first and last declarations include each other |
| Distribution.PermissionChanges | crates/floatile-core/src/distribution.rs:215-246 | the loop computes the change list of the two permission maps |
| Distribution.ChangeListCoverage | crates/floatile-core/src/distribution.rs:215-246 | the list covers the union of capabilities, once each, in order |
| Distribution.ChangeKindMeaning | crates/floatile-core/src/distribution.rs:215-246 | what each kind says of the two request sets |
| Distribution.WidensIffNewAuthority | crates/floatile-core/src/distribution.rs:124-168 | a list widens exactly when some (capability, request) pair is newly allowed |
| Distribution.UpgradeConfirmation | crates/floatile-core/src/distribution.rs:124-168 | an accepted upgrade asks for confirmation exactly when it gains authority as the planners read it, by last declarations |
| Distribution.RollbackNeverWidens | crates/floatile-core/src/distribution.rs:170-213 | an accepted rollback gains no authority in that reading |
| Distribution.UndoingAnUpgrade | crates/floatile-core/src/distribution.rs:124-213 | an accepted upgrade can be rolled back exactly when it migrated nothing and gave up no authority in that reading |
| Distribution.ChainAuthority | crates/floatile-core/src/distribution.rs:124-246 | along any chain of upgrades and rollbacks, authority in that reading comes from the first manifest or from a confirmed upgrade |
| Distribution.OnceIsCoherent | crates/floatile-core/src/manifest.rs:290-292 | a manifest without duplicate declarations is coherent: its first and last declarations allow the same |
| Distribution.DecidedUpgradeConfirmation | crates/floatile-core/src/distribution.rs:124-168 | between coherent manifests an accepted upgrade asks for confirmation exactly when `authorize` would allow more |
| Distribution.DecidedRollbackNeverWidens | crates/floatile-core/src/distribution.rs:170-213 | between coherent manifests `authorize` allows nothing more after an accepted rollback |
| Distribution.DecidedUndoing | crates/floatile-core/src/distribution.rs:124-213 | between coherent manifests an accepted upgrade can be rolled back exactly when it migrated nothing and `authorize` allows no less after it |
| Distribution.DecidedChain | crates/floatile-core/src/distribution.rs:124-246 | along any chain of coherent manifests, what `authorize` allows was allowed by the first or by a confirmed upgrade |
| Distribution.DecidedWithinIffFirsts | crates/floatile-services/src/broker.rs:166-183 | for any two manifests, `authorize` allows nothing beyond the other exactly when its first declarations are within the other's |
| Distribution.DuplicateHidesExpansion | crates/floatile-core/src/distribution.rs:248-263 | an accepted, unconfirmed upgrade after which a new storage key is readable |
| Planning.UpgradeOutcome | crates/floatile-core/src/distribution.rs:124-168 | an upgrade is planned exactly when ids, publishers, versions, migrations and both permission lists check, else with the error of the first check that fails; the plan names both versions, lists each capability once with what its kind says of the two manifests, and asks for confirmation exactly on new authority |
| Planning.RollbackOutcome | crates/floatile-core/src/distribution.rs:170-213 | a rollback is planned exactly when the same checks hold with the versions reversed, the migrations equal and no authority coming back, else with the error of the first that fails |
| Planning.ParseMessageIsFirst | crates/floatile-core/src/distribution.rs:248-263 | a permission list parses exactly when every declaration does, and is refused with the message of the first that does not |
| BrokerCalls.BrokerQuotas | crates/floatile-services/src/broker.rs:83-113 | the constructor's loop leaves for each service the quota of the last grant that carries one, or the default |
| BrokerCalls.QuotaIsLast | crates/floatile-services/src/broker.rs:83-113 | that quota by position: the last grant carrying one decides, wherever it stands |
| BrokerCalls.BareGrantsKeepQuota | crates/floatile-services/src/broker.rs:64-113 | the inherent grants added before the loop change no quota |
| BrokerCalls.CallsWithinIffFirstsAndLasts | crates/floatile-services/src/broker.rs:166-429 | for any two lists of grants, no call passes decision and quota under the one that does not under the other exactly when first grants and last quotas compare, capability by capability |
| BrokerCalls.UnconfirmedGainsNoCall | crates/floatile-core/src/distribution.rs:124-168 | between coherent manifests that declare no inherent capability, as validation demands, an upgrade without confirmation gains no call |
| BrokerCalls.RollbackGainsNoCall | crates/floatile-core/src/distribution.rs:170-213 | between such manifests a rollback gains no call |
| BrokerCalls.ChainCalls | crates/floatile-core/src/distribution.rs:124-246 | along any chain of planned moves between such manifests, every call possible at the end was possible at first or after a confirmed upgrade |
| BrokerCalls.DecidedMoreButNoNewCall | crates/floatile-services/src/broker.rs:83-113 | a first timer grant that decides more and a last one that does not: no new call |
| BrokerCalls.DuplicateHidesCall | crates/floatile-services/src/broker.rs:238-248 | after the unconfirmed upgrade with a duplicate, key b can be read |
| Encoding.LittleEndianRoundTrip | crates/floatile-core/src/install.rs:58-67 | the length field reads back |
| Encoding.FeedHasher | crates/floatile-core/src/install.rs:58-67 | the hashing loop feeds exactly the preimage |
| Encoding.SortedIsCanonical | crates/floatile-core/src/install.rs:58-67 | a file map has one iteration order |
| Encoding.DecodeInverts | crates/floatile-core/src/install.rs:58-67 | a decoder recovers the files of every validated set from the preimage |
| Encoding.PreimageInjective | crates/floatile-core/src/install.rs:58-67 | two validated sets have equal preimages exactly when they are the same map |
| Encoding.NulNamesCollide | crates/floatile-core/src/install.rs:58-67 | with a NUL in a name two different maps have one preimage |
| Encoding.SignablePreimageInjective | crates/floatile-core/src/distribution.rs:348-355 | signed preimages are equal exactly when the maps agree off signature.json |
| Encoding.DecimalRoundTrip | crates/floatile-core/src/distribution.rs:363-373 | a printed length reads back |
| Encoding.DecodePaeInverts | crates/floatile-core/src/distribution.rs:363-373 | a decoder recovers type and payload, whatever bytes they hold |
| Encoding.PaeInjective | crates/floatile-core/src/distribution.rs:363-373 | the encoding is injective on type and payload |
| Signature.VerifyEnvelope | crates/floatile-core/src/distribution.rs:376-444 | accepts exactly when the envelope is presentable, names no revoked key and some pair verifies with nothing malformed before it; otherwise the error is that of the first check that fails, then of a revoked key, then of the first malformed named pair, and InvalidSignature or UnknownKey by whether a trusted key was named |
| Signature.AcceptedIsSigned | crates/floatile-core/src/distribution.rs:376-444 | an accepted envelope names the unrevoked publisher and no revoked key, and one of the publisher's keys signed the digest of the package as a package payload |
| Signature.SignedMessageReads | crates/floatile-core/src/distribution.rs:407-407 | the signed bytes read back as the envelope's type and payload |
| Signature.EnvelopeBindsPackage | crates/floatile-core/src/distribution.rs:376-444 | one envelope for two packages whose signed preimages do not collide means equal packages off signature.json |
| Patch.Merge | crates/floatile-ui-schema/src/patch.rs:17-38 | the loop, whatever the key order, equals MergePatch of section 2 of RFC 7386 |
| Patch.MergeIdempotent | crates/floatile-ui-schema/src/patch.rs:17-38 | applying a patch twice is applying it once |
| Patch.MergeFrame | crates/floatile-ui-schema/src/patch.rs:17-38 | paths a patch does not mention keep their value or absence |
| Patch.MergeDeletes | crates/floatile-ui-schema/src/patch.rs:17-38 | a path spelled out to null is absent afterwards |
| Patch.DifferenceReaches | crates/floatile-ui-schema/src/patch.rs:17-38 | one computed patch takes any value to a null-free object |
| Patch.MergeKeepsNullFree | crates/floatile-ui-schema/src/patch.rs:17-38 | object patches keep null-free values null-free |
| Patch.ReachableIffNullFree | crates/floatile-ui-schema/src/patch.rs:17-38 | an object is reachable by one object patch from every state exactly when it is null-free |
| UiState.UiHost.UpdateState | crates/floatile-runtime/src/state.rs:100-151 | the whole state after a call; a commit exactly when every check holds, else the error of the first that fails; Ok and QueueFull by the room in the queue |
| UiState.StateIsFoldOfCommits | crates/floatile-runtime/src/state.rs:100-151 | over every call sequence the State is the fold of the committed patches, schema-valid and within size, and seq counts commits |
| UiState.DeliveredUpdates | crates/floatile-runtime/src/state.rs:136-151 | delivered updates have strictly increasing seq and carry the State as of it |
| UiState.ShownIffLastCommitHadRoom | crates/floatile-runtime/src/state.rs:141-150 | in every run the last update sent is the current State exactly when the last commit had room; otherwise every update sent is older |
| UiState.QueueFullStillCommits | crates/floatile-runtime/src/state.rs:141-150 | after a call answered QueueFull the run goes on from the merged State, counted as a commit, and no update sent so far shows it |
| UiState.ClosedSendsNothing | crates/floatile-runtime/src/state.rs:143-150 | once the UI side is gone nothing more is ever sent, whatever is committed |
| UiState.RetryAfterQueueFull | crates/floatile-runtime/src/state.rs:100-151 | resubmitting the patch commits the same State again |
| UiState.UiReceivesInOrder | crates/floatile-runtime/src/state.rs:141-150 | in every run the UI takes the updates sent in order and each once: those it has not taken are the queue |
| UiState.WindowIsLimiter | crates/floatile-runtime/src/state.rs:111-120 | the rate window of a run is the limiter's on its authorized calls |
| UiState.CommitsAreAdmitted | crates/floatile-runtime/src/state.rs:111-136 | a run commits no more often than the limiter admits its authorized calls |
| Limiter.RateWindow.Reserve | crates/floatile-services/src/broker.rs:374-387 | admits and counts as the fixed-window rule says |
| Limiter.SlidingBound | crates/floatile-services/src/timer.rs:59-70 | at most max per window met, hence at most 2 * max in any interval of one window length |
| Limiter.WindowsApart | crates/floatile-services/src/log.rs:42-50 | window starts are at least a window apart |
| Limiter.BurstReachesBound | crates/floatile-runtime/src/state.rs:111-120 | 2 * max admissions one nanosecond apart do occur |
| Timer.TimerService.Admit | crates/floatile-services/src/timer.rs:59-70 | the rate decides first and a full slot table spends no rate |
| Timer.TimerService.Issue | crates/floatile-services/src/timer.rs:72-81 | a fresh slot under the next id; below wrap-around scheduled = active + cancelled + completed |
| Timer.TimerService.Schedule | crates/floatile-services/src/timer.rs:55-81 | when a timer is scheduled, what changes, and that errors change no slot |
| Timer.TimerService.Cancel | crates/floatile-services/src/timer.rs:94-103 | frees exactly that slot and raises its flag |
| Timer.TimerService.Complete | crates/floatile-services/src/timer.rs:105-107 | frees exactly that slot, if it is one |
| TimerRuns.PlayInv | crates/floatile-services/src/timer.rs:83-107 | in every run a slot is taken exactly by a timer that is not cancelled and sleeps, waits in the actor queue, or had its event dropped |
| TimerRuns.DroppedKeepsSlot | crates/floatile-runtime/src/lib.rs:340-349 | a timer whose event was dropped keeps its slot until it is cancelled |
| TimerRuns.DroppedExhaustSlots | crates/floatile-runtime/src/lib.rs:340-349 | after max_active dropped events no schedule succeeds until one of those timers is cancelled |
| TimerRuns.ExhaustionIsReachable | crates/floatile-runtime/src/lib.rs:340-349 | that state is reached by waking each timer into a full queue |
| TimerRuns.ActorFreesHandledSlots | crates/floatile-runtime/src/lib.rs:498-516 | an actor run frees exactly the slots whose timer event succeeded |
| TimerDelivery.Delivery.Schedule | crates/floatile-services/src/timer.rs:55-92 | the service with its spawned task takes one step of the timer runs, a schedule that the rate admits or not |
| TimerDelivery.Delivery.Wake | crates/floatile-services/src/timer.rs:83-91 | a task that wakes looks at the flag it shares with its slot: one step of the timer runs |
| TimerDelivery.Delivery.Handled | crates/floatile-services/src/timer.rs:105-107 | a handled event frees its slot: one step of the timer runs |
| TimerDelivery.Delivery.Cancel | crates/floatile-services/src/timer.rs:94-103 | a cancellation frees the slot and stops its task, and no other, through the flag: one step of the timer runs |
| Https.PlayInv | crates/floatile-services/src/http.rs:291-336 | the invariant of runs and cache holds under every interleaving |
| Https.CallsAreBounded | crates/floatile-services/src/http.rs:298-320 | at most max_retries + 1 calls, only Unavailable retried, delays adding up to base * (2^k - 1) |
| Https.ServedResponsesAreGenuine | crates/floatile-services/src/http.rs:292-329 | a served response is this run's own, or was given for the same key and stored within ttl, or ttl + stale after an error |
| Https.BrokenMeansExhausted | crates/floatile-services/src/http.rs:321-334 | a run fails with the transport's last error after every allowed retry, and only then reports Degraded |
| Https.RunsEnd | crates/floatile-services/src/http.rs:298-336 | a run moves at most 2 * max_retries + 3 times |
| Https.RunCanMove | crates/floatile-services/src/http.rs:298-336 | a run that has not ended can always move |
| HttpsRuns.WorkBegins | crates/floatile-services/src/http.rs:288-292 | work of a valid template begins by looking at the cache |
| HttpsRuns.CacheIsLastKeep | crates/floatile-services/src/http.rs:305-313 | in every run the cache holds for each key what the last run that kept a response for it was answered, and when |
| HttpsRuns.LookupServes | crates/floatile-services/src/http.rs:292-297 | a look-up serves exactly when the template has a ttl and the last keeping for its key is no older; it serves that response, and otherwise calls |
| HttpsRuns.RecoverServes | crates/floatile-services/src/http.rs:321-334 | after its last failed call a run serves exactly when stale entries are allowed and the last keeping is recent enough, and otherwise ends with that error, degraded |
| HttpsRuns.EndedForever | crates/floatile-services/src/http.rs:296-296 | a run that ended stays as it is: a response from the cache costs no call, then or later |
| HttpsRuns.AnswerIsServed | crates/floatile-services/src/http.rs:300-315 | the transport's answer is what the run returns, and what the cache then holds exactly if the template caches |
| HttpsRuns.FailRetries | crates/floatile-services/src/http.rs:316-334 | a failed call is retried exactly when it was Unavailable and a retry is left, after base * 2^k |
| HttpsRuns.WakeCallsAgain | crates/floatile-services/src/http.rs:316-320 | a retry is made once its delay has passed and no earlier |
| HttpsRuns.RetriesWait | crates/floatile-services/src/http.rs:316-320 | a call after k retries comes at least base * (2^k - 1) after the run began |
| HttpsRuns.RunsKeepTheirTemplate | crates/floatile-services/src/http.rs:278-292 | a run keeps the key and template it began with |
| Forms.ConfigFromFields | crates/floatile-shell/src/instance_control.rs:1098-1137 | the loop computes the assembled configuration, or reports the first field that does not parse |
| Forms.FieldReadsBack | crates/floatile-shell/src/instance_control.rs:1081-1096 | a value that prints and parses back reads back from its field exactly when it fits the field's kind |
| Forms.AssembledHolds | crates/floatile-shell/src/instance_control.rs:1107-1135 | the assembled object holds each used field under its key and nothing else, and exists exactly when each used field parses |
| Forms.FormRoundTrip | crates/floatile-shell/src/instance_control.rs:988-1137 | submitting an unchanged form returns the configuration exactly when the fallback field is used, or every value fits its field and no absent property is required or defaulted; without a schema, exactly when it is empty |
| Forms.FormFillsDefaults | crates/floatile-shell/src/instance_control.rs:1004-1052 | submitting an unchanged form of properties returns the configuration completed by the defaults of the properties it lacks, when all of them fit |
| Forms.FaithfulCodecExists | crates/floatile-shell/src/instance_control.rs:988-1137 | for every configuration there is a way to print and parse that the round trip's hypothesis admits |
| Forms.SubmissionOutcome | crates/floatile-shell/src/instance_control.rs:1098-1137 | what any submission comes to: the first root field as the whole configuration, or the used fields as its members, within the bound, or the error of the first field that does not parse |
| RenderText.EncodeString | crates/floatile-renderer/src/render.rs:751-771 | the loop computes the escaped literal or refuses |
| RenderText.LiteralReadsBack | crates/floatile-renderer/src/render.rs:751-771 | an encoded string reads back as one literal equal to its input, whatever follows |
| RenderText.RefusedIffControl | crates/floatile-renderer/src/render.rs:751-771 | exactly strings with other control characters are refused |
| Identifiers.NameReadsBack | crates/floatile-renderer/src/render.rs:105-112 | whatever delimited text follows, a string written as a name reads back as that one name exactly when it is an identifier |
| Identifiers.PropNameReadsBack | crates/floatile-renderer/src/render.rs:683-725 | the generated name of a path does exactly when its fields have word characters only |
| RenderText.SplitJoins | crates/floatile-ui-schema/src/path.rs:18-54 | the fields of a path joined by dots give the path back |
| RenderText.ParseIsInjective | crates/floatile-ui-schema/src/path.rs:18-54 | different paths have different fields |
| RenderText.NamesCollideOnlyAtState | crates/floatile-renderer/src/render.rs:713-725 | without underscores in fields, names collide exactly between the root and `$.state` |
| RenderText.NamesCollide | crates/floatile-renderer/src/render.rs:713-725 | with underscores they collide |
| RendererExamples.PropertyDeclaredTwice | crates/floatile-renderer/src/render.rs:683-725 | a tree binding `$.a_b` and `$.a.b` is accepted and declares one property name twice |
| RendererScope.HandlerIsGood | crates/floatile-renderer/src/render.rs:728-748 | an event handler calls a declared callback of its own name |
| RendererAccepts.AcceptedIff | crates/floatile-renderer/src/render.rs:119-160 | a tree is accepted, style properties aside, exactly when each component has what its kind needs with every literal text quotable, it is at most 32 deep with at most 256 components, and it binds at most 512 paths, each at one type |
| RendererOutline.CodeSaysTree | crates/floatile-renderer/src/render.rs:119-667 | accepted code says in document order what the tree says: each literal text, bound path with its type, item name, event called, branch under its condition or its negation, and template in its loop |
| RendererNames.BindingsAreUses | crates/floatile-renderer/src/render.rs:683-711 | the properties declared are those of the paths the tree binds |
| RendererNames.GeneratedCodeIsScoped | crates/floatile-renderer/src/render.rs:59-117 | in accepted code a reference to a path reads back as the property declared for it, at its type, exactly when the path's fields have word characters only; calls always read back as declared callbacks; what is declared is what the tree binds and is referred to; callbacks differ; budgets hold |
| RendererNames.NamesReadBackIffPlain | crates/floatile-renderer/src/render.rs:369-376 | every name in accepted code reads back as one name exactly when each bound field has word characters only and each item name shown and each key is an identifier |
| RendererLoops.ItemNamesFollowTree | crates/floatile-renderer/src/render.rs:644-680 | for any test of names under the keys of the loops around them, the item names in accepted code all pass exactly when those of the tree do |
| RendererNames.LoopNamesResolve | crates/floatile-renderer/src/render.rs:644-680 | whatever names have a meaning of their own, every name in accepted code is one name and visible exactly when the tree is plain and each item name shown is known, or lies in a ForEach and is item or an enclosing key |
| RendererNames.LookupMeans | crates/floatile-renderer/src/render.rs:659-663 | a bare name is the element only as item in a loop not keyed item, and otherwise the index of the nearest loop keyed by it, or nothing |
| RendererNames.ItemsNeverMeanTheirField | crates/floatile-ui-schema/src/validate.rs:304-315 | no item binding, whatever its name, denotes the element or the field of it that validation took it for |
| RendererNames.ItemsAreIntendedIffNone | crates/floatile-renderer/src/render.rs:369-376 | the item bindings of an accepted tree all denote what validation took them for exactly when it shows none |
| RendererLoops.LoopArraysAreStrings | crates/floatile-renderer/src/render.rs:644-667 | accepted code uses every property at a fitting type exactly when it has no loop |
| RendererExamples.FieldNamesAreUndeclared | crates/floatile-renderer/src/render.rs:369-376 | a loop whose template shows an identifier that is neither known, nor item, nor the loop's key is accepted; nothing gives that name a meaning, and the loop iterates over a string |
| RendererExamples.ItemLoopWorks | crates/floatile-renderer/src/render.rs:644-680 | any loop around one item text: accepted, when its names read back, and when the name it shows is visible |
| RendererExamples.TitleIsUndeclared | crates/floatile-renderer/src/render.rs:369-376 | rows keyed by id that show their title: every name reads back, and title is nothing |
| RendererExamples.DocumentedLoopShowsIndex | docs/plugin-sdk/ui-ir-v1.md:133-141 | the documented loop denotes the index and is meant as the element |
| RendererExamples.BrokenNamesAreAccepted | crates/floatile-renderer/src/render.rs:644-725 | an accepted tree whose field, key and item name hold a semicolon; its property reads back cut short |
| RendererScope.PropertyNamesAreDistinct | crates/floatile-renderer/src/render.rs:683-725 | declared property names are distinct exactly up to the root and `$.state`, when fields have no underscore |

## Left out

- Bodies of hashing, Ed25519 and base64: digests and signatures are symbolic or uninterpreted; `Signature` takes the outcome of each check as input.
- The order in which a real file system makes writes durable: each file, rename and database operation is atomic and durable when it reports success, and a torn file write is an event of its own.
- InstallRun.PlayInv: assumes one trusted-install process at a time and nonces that are never reused; the unsigned install path and concurrent processes are not modelled.
- Timer.TimerService.Schedule: does not model the spawned delivery task; `TimerDelivery` adds it, below the wrap-around of ids.
- TimerDelivery.Delivery.Schedule: states the correspondence with `TimerRuns` only while the id counter has not wrapped; the length of a sleep is not modelled, a task may wake at any time.
- Distribution.DecidedChain: authority is that of the plugin's declared grants, before instance narrowing and before the broker adds inherent capabilities.
- BrokerCalls.CallsWithinIffFirstsAndLasts: a call passes decision and quota; the syntax of storage keys, the templates and connections behind a fetch, and the built-in limits on logging and State updates come on top and are the same for every manifest or configured elsewhere.
- Install.Host.RecoverTrustedInstalls: covers the loop with every operation succeeding; failing operations and crashes inside recovery are in the machine of `InstallRun`.
- Semantic versions: only their order is used, and it is embedded in the reals.
- Patch.Merge: works on values with the merged value as out-parameter, so it does not capture that the source mutates its target through a reference.
- Operation results: an erased value is a type tag and an integer; `work` is an oracle that may return anything at any poll; panics of `work` are not modelled.
- InvalidDeadline and IdExhausted answers of `submit`: no event of the system; a submit that fails before drawing an id changes nothing.
- Tokio internals: semaphores, channels, timeouts and `Notify` are taken at their documented contracts.
- Actor.RunActor: starts after the constructor succeeded, sees the arrived commands as a sequence and the guest as an oracle; fuel, epochs and error texts are not modelled.
- Https: assumes the bounds of the manifest check on retries and base delay (crates/floatile-core/src/manifest.rs:360-361) where a run begins; leaves out request building, address filtering and credentials; a run can be abandoned at any point by having no further events; the error keeps its transport value instead of the operation failure it maps to.
- Identifiers: a name is a letter or underscore and then letters, digits, underscores and hyphens, with any choice of letters and numerals beyond ASCII; that the Slint compiler takes `-` and `_` in names for the same is not modelled, and neither are the names it knows by itself, which are a parameter.
- RendererNames.LookupMeans: where a loop uses `item` for its key, the index is taken to hide the element; the compiler of the generated language decides this.
- RendererAccepts.AcceptedIff: does not say which of several errors a refused tree gets.
- Renderer: style properties, numbers and markup text; the checks of style properties only refuse more trees than the model does. `Grid` with zero columns is excluded by document validation, and the model ignores the column count. The source threads `&mut Ctx`; the model threads the context as a value.
- Forms.FormRoundTrip: assumes that the values of the configuration, and the configuration as a whole, print and parse back (`Forms.FaithfulTo`); a float whose printed form is parsed to a neighbouring one is therefore outside it. Labels and `$ref` resolution are not modelled, a property comes with its resolved kind and default.
- `parse_capability_params` and `validate_manifest`: used through the bounds they establish.
- Storage byte accounting, metrics, theme, clock, hexadecimal encoding, layout sizes, error-code tables and all platform code: no property spans several steps.
