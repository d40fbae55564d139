# Verified model of the upgrade control plane

This project models the parts of the repository that have to stay right across crashes, retries and
concurrent processes, and proves what they promise. It needs Dafny 4.11: `dafny verify dfyconfig.toml`.

| files | what they model |
|---|---|
| `Journal`, `JournalTheorems`, `JournalRuns`, `JournalStore` | the append-only, hash-chained event journal: chain rules, projection, file steps of a commit, retries, repair |
| `Lifecycle`, `LifecycleTheorems`, `LifecycleRetries`, `LifecycleHost`, `LauncherRaces` | activation, suspension, the one-shot launcher and the supervisor's row on top of that journal; launcher calls that overlap |
| `ColdWindow`, `ColdWindowTheorems`, `ColdWindowPaths`, `ColdWindowHost`, `ColdWindowRecovery`, `ColdWindowReturns` | the cold upgrade window: marker, phase journal, start token, pre-start recovery, under two locks; what undisturbed calls reach; window objects that take the lock again |
| `Dependencies`, `Seal` | the recovery group's dependency search and path rules, and the seal's restore mapping |
| `TreeWalk` | the explicit-stack walks: inventory of a tree and copy of a tree |
| `Completion` | recording a manual acceptance exactly once |
| `Mirrors`, `ColdWindowMirrors` | the journal rows that end a completion and each cold phase |
| `Schema` | additive comparison of database snapshots |
| `BoundedLog` | the rotating log |
| `Drain` | draining the replication listener before the retained store is closed |
| `Sweep` | the paginated repository maintenance scan with bounded retries |
| `Descendants` | the process-descendant worklist |
| `Numbers`, `ReleaseTags` | JavaScript's whole numbers, read and printed; release tags, release lines, and the next release candidate |
| `Basics`, `Sorting` | shared result types and small facts; a stable sort and its text order |

## How it is modelled

A component that changes things in place is a class (or a method with loops) whose contract ties the
new state to a function of the old one; the lemmas are about that function. A crash is a `budget` of
file steps: the process dies after that many, wherever that is, and everything it only knew in memory
is gone. Concurrent parts are step machines in which any interleaving is a list of labels, and a
label that is not enabled changes nothing. Digests are constructors, hence injective. Clocks, the
manager, the runner, `os.write` counts, SQLite, git and Forgejo answers are parameters or arbitrary
choices.

Eight natural claims turned out too strong. For each there is a run or an input that breaks it, and the
exact condition under which it holds:

- The launcher runs its runner at most once per epoch only as long as no blocked row is durable while
  no generation of the epoch is. With an intent durable and the authority active, a call reaches the
  runner if and only if a blocked row is durable and nobody, neither a launcher nor a supervisor, has
  recorded a generation at the epoch (`LifecycleTheorems.BlockedReopensExactly`,
  `LifecycleTheorems.BlockedRunExample`, `LifecycleTheorems.SupervisedRunExample`).
- Launcher calls that overlap share no fence: the state lock is held for one commit at a time. A call
  past the fence when the first intent becomes durable reaches the runner if and only if it read the
  binding of that intent, the epoch is still the newest and the journal is not full
  (`LauncherRaces.EarlyCallReachesExactly`); n calls can be n invocations (`LauncherRaces.RaceExample`),
  and the calls that passed in time are the bound (`LauncherRaces.RacesBounded`).
- A completion and every cold phase end with a journal row of the literal epoch 1. Their calls return
  if and only if the newest epoch of the journal is 1 (`Mirrors.ConfirmReturnsExactly`,
  `ColdWindowMirrors.PhaseReturnsExactly`). After a second activation (`Mirrors.SecondEpoch`) a
  completion is durable but its call raises for ever, and a recovery is stuck at its authorization
  (`ColdWindowMirrors.RecoveryReturnsExactly`).
- A crash that left the journal's header but no event lets a retry for another host succeed, after
  which the journal cannot be read (`JournalRuns.HeaderWithoutEvent`). A commit that returned its row
  left a readable journal if and only if there was no header yet or it names the row's host
  (`JournalRuns.AppendedReadableExactly`).
- The depth budget makes the verdict of the dependency search depend on the order in which objects
  and dependencies are listed. A closed acyclic graph is accepted in every order if and only if no
  dependency path holds more than 128 objects (`Dependencies.OrderFreeExactly`,
  `Dependencies.ListingOrderDecides`).
- A whole acceptance staged under one approval, with the crash before its rename, shuts every other
  approval out for good, and the binding too once that approval has expired. Two file steps after the
  first claim lead there (`Completion.BlockReached`), no run without that approval leads out
  (`Completion.StageShutsOthersOut`), and exactly one kind of call does
  (`Completion.BlockOpensExactly`).
- A window object that gave its lock back and takes it again goes on from the journal it remembers.
  If every other return before and after it is of an object whose memory cannot harm, that is harmless
  if and only if its memory cannot harm or an orphaned staging file blocks every write
  (`ColdWindowReturns.ReturnHarmlessExactly`); a phase that is not behind the durable one never harms.
  In a fresh deployment two such objects consume two starts (`ColdWindowReturns.SecondStart`), and one
  starts a window whose recovery was authorized (`ColdWindowReturns.StartAfterRecovery`). The theorems
  over all runs of the window are about runs in which only objects come back whose memory cannot harm.
- The next release candidate is new if and only if the one number it adds one to can be added to,
  which fails from 2^53 on except for every second even number below 2^54, and the latest serial is
  below 10^21, where JavaScript begins to print an exponent (`ReleaseTags.NextRcExactly`,
  `ReleaseTags.NextRcRunsOut`).

## Model

| member | source | states |
|---|---|---|
| JournalTheorems.ScanExact | scripts/upgrade_state.py:246-261 | A directory is read as a list of rows exactly when its visible names are 1..n, each a single-link complete event file, and the rows form a valid chain |
| JournalTheorems.ScanFirstExact | scripts/upgrade_state.py:250-260 | The same for the first n names of the scan, for every n |
| JournalTheorems.HeadDeterminesChain | scripts/upgrade_state.py:197-208 | Two valid chains with the same newest row are equal: no earlier row can be altered, dropped or inserted |
| JournalTheorems.ChainSequence | scripts/upgrade_state.py:197-208 | In a valid chain row i carries sequence i + 1 and the digest of row i - 1 |
| JournalTheorems.EpochStep | scripts/upgrade_state.py:209-224 | Between neighbouring rows the host never changes, and the epoch stays or, at an activation only, rises by one |
| JournalTheorems.EpochsMonotone | scripts/upgrade_state.py:209-224 | Over any distance epochs never decrease, and any rise has an activation to that epoch in between |
| JournalTheorems.AuthorityEpochIsCurrent | scripts/upgrade_state.py:288-311 | In every valid chain a present authority carries exactly the chain's current epoch |
| JournalTheorems.PendingCountsOpenIntents | scripts/upgrade_state.py:297-302 | An effect id occurs in the pending list as often as there are intent rows for it after its last observed, committed or blocked row |
| JournalTheorems.ProjectionNamesHead | scripts/upgrade_state.py:291-296 | The projection of a valid chain names the number, digest, epoch and phase of its newest row |
| JournalTheorems.GenerationIsLastObserved | scripts/upgrade_state.py:309-310 | The projected generation is that of the last observed spawn or start, and none exactly when there was none |
| JournalRuns.CommitCutExact | scripts/upgrade_state.py:320-356 | For every crash point, what readers see after a new commit: the old chain, the old chain plus exactly that event, or a refusal, and which of the three at each step |
| JournalRuns.CommitRows | scripts/upgrade_state.py:320-356 | Whatever staging names are taken and wherever it stops, a commit leaves the old rows, one more admitted row, or an unreadable journal; a replay writes nothing |
| JournalRuns.LinkedTwice | scripts/upgrade_state.py:134-141 | A crash between link and unlink leaves two names for one file, and the journal is refused |
| JournalRuns.DuplicateExact | scripts/upgrade_state.py:329-338 | A request counts as new exactly when no row has its operation id or event id, and is replayed only by a row with an identical body |
| JournalRuns.DuplicateFinds | scripts/upgrade_state.py:329-338 | Among rows with distinct ids the search finds the one row that carries the body |
| JournalRuns.JournalIsAppendOnly | scripts/upgrade_state.py:314-356 | Over all runs of commits cut off anywhere, earlier rows are a prefix of later rows, the chain is valid and ids are pairwise distinct |
| JournalRuns.RunAppendsOnly | scripts/upgrade_state.py:314-356 | The same from any disk, and an unreadable journal is never touched again |
| JournalRuns.ImmediateRetryExact | scripts/upgrade_state.py:320-335 | Retrying the newest event writes nothing; it returns that row exactly when the journal is not full, the clock text is usable and the expected epoch has not been overtaken by the event itself |
| JournalRuns.LaterRetry | scripts/upgrade_state.py:329-338 | Retrying any earlier event returns its row or is refused, and never appends a second one |
| JournalRuns.HeaderWithoutEvent | scripts/upgrade_state.py:343-350 | Counterexample: header without event, retry for another host is accepted, and the journal is then unreadable |
| JournalRuns.AppendedReadableExactly | scripts/upgrade_state.py:339-356 | A commit that returned its row left a readable journal if and only if there was no header before or it names the row's host; the failing case is a header without any event |
| JournalRuns.LoadIgnoresCurrent | scripts/upgrade_state.py:264-285 | A helper: adding, changing or removing the projection file never changes what the journal is read as |
| JournalStore.RepairRestores | scripts/upgrade_state.py:377-405 | Repair never touches an event nor what readers see, wherever it stops; finished, from any stale or torn file, the projection is the fold of the chain |
| JournalStore.ScanRows | scripts/upgrade_state.py:246-261 | The loop over names computes the scan |
| JournalStore.ProjectRows | scripts/upgrade_state.py:288-311 | The loop over rows computes the projection |
| JournalStore.Directory.PublishExclusive | scripts/upgrade_state.py:111-157 | Exclusive creation, write, link, unlink, cut after any number of steps, gives exactly the specified directory; a staging name that is taken is refused and removed |
| JournalStore.Directory.Overwrite | scripts/upgrade_state.py:359-374 | Staging and rename, cut after any number of steps, gives exactly the specified directory |
| JournalStore.Store.LoadVerified | scripts/upgrade_state.py:264-285 | Reading header, scan and hosts computes the specified verdict |
| JournalStore.Store.CommitEvent | scripts/upgrade_state.py:320-356 | The commit with its duplicate loop leaves exactly the specified disk and outcome |
| JournalStore.Store.RepairProjection | scripts/upgrade_state.py:377-405 | The repair leaves exactly the specified disk and outcome |
| LifecycleTheorems.SoundRun | scripts/upgrade_lifecycle.py:40-65 | Every sequential run of activations, suspensions, launches, supervisors and commits of others, cut off anywhere, keeps the lifecycle rules of the chain |
| LifecycleTheorems.ActivationsAlternate | scripts/upgrade_lifecycle.py:40-65 | In every such chain activations and suspensions alternate, a suspension carries the epoch it ends, and successive activations carry consecutive epochs |
| LifecycleTheorems.RunAlternates | scripts/upgrade_lifecycle.py:40-111 | So it is in the journal that any sequential run from an empty disk leaves, wherever its actions were cut off, and an activation comes before every suspension |
| LifecycleTheorems.ActivatedFirst | scripts/upgrade_lifecycle.py:101-111 | A suspension is preceded by an activation |
| LifecycleTheorems.RunnerNeedsAuthority | scripts/upgrade_recovery.py:514-540 | The runner is reached only with a readable journal whose authority is active at exactly that epoch and with no pending or observed spawn, and only after the intent is durable or replayed |
| LifecycleTheorems.FenceExact | scripts/upgrade_recovery.py:526-530 | Once an intent is durable, the launcher is fenced exactly unless a blocked row is durable and no generation of the epoch is |
| LifecycleTheorems.RunnerAtMostOnce | scripts/upgrade_recovery.py:514-553 | Over any sequential run with supervisors, crashes and runner exceptions anywhere, in which no state has a blocked row but no generation of the epoch, the runner is invoked at most once for it |
| LifecycleTheorems.BlockedReopensExactly | scripts/upgrade_recovery.py:526-547 | With an intent durable and the authority active, a call reaches the runner if and only if a blocked row is durable and no generation of the epoch is on record |
| LifecycleTheorems.BlockedThenUnbounded | scripts/upgrade_recovery.py:541-547 | After a blocked row, while no generation is on record, n launcher calls are n invocations |
| LifecycleTheorems.BlockedRunExample | scripts/upgrade_recovery.py:541-547 | A concrete run from an empty disk: activation, one malformed answer, n more calls, n + 1 invocations |
| LifecycleTheorems.SpawnedClosesForGood | scripts/upgrade_recovery.py:529-531 | With a generation of the epoch on record, no later call reaches the runner, whatever anybody commits |
| LifecycleTheorems.SupervisorCloses | scripts/ags-runtime.py:321-339 | Wherever the fence is down again under an active authority, a supervisor with a new generation and all its steps puts it up for good |
| LifecycleTheorems.SupervisedRunExample | scripts/ags-runtime.py:373-376 | A concrete run from an empty disk: activation, one malformed answer, a supervisor's row, n more calls, one invocation |
| LauncherRaces.AloneIsCall | scripts/upgrade_recovery.py:514-553 | Fence, intent and observation of a call that nobody disturbs are the call |
| LauncherRaces.RacesBounded | scripts/upgrade_recovery.py:520-540 | For overlapping calls of any number, with commits of others in between and deaths anywhere: invocations are at most the passes of the fence before the first intent was durable plus those while a blocked row and no generation was |
| LauncherRaces.EarlyCallReachesExactly | scripts/upgrade_recovery.py:532-540 | A call past the fence when an intent is durable reaches the runner if and only if it read that intent's binding and host, the epoch is the newest, the journal is not full and the clock text is usable; it writes nothing |
| LauncherRaces.RaceExample | scripts/upgrade_recovery.py:520-540 | For every n, a race from an empty disk in which n calls reach the runner of one epoch |
| LifecycleRetries.ActivationConverges | scripts/upgrade_lifecycle.py:50-55 | After an activation was cut off anywhere with its event durable, asking again writes nothing and returns exactly the authority it was to give |
| LifecycleRetries.ActivationGives | scripts/upgrade_lifecycle.py:57-65 | A helper of the row above: an activation that changed the journal and returned gives the authority of its own approval, epoch and completion |
| LifecycleRetries.SuspensionRefusedAgain | scripts/upgrade_lifecycle.py:101-111 | A durable suspension leaves the same authority suspended, and asking again is refused |
| LifecycleHost.ActivateDurable | scripts/upgrade_lifecycle.py:40-65 | Activation leaves exactly the specified disk and result |
| LifecycleHost.SuspendDurable | scripts/upgrade_lifecycle.py:101-111 | Suspension leaves exactly the specified disk and result |
| LifecycleHost.LaunchOnce | scripts/upgrade_recovery.py:514-553 | One launcher call leaves exactly the specified disk, and reaches the runner exactly when specified |
| LifecycleHost.RecordSpawn | scripts/ags-runtime.py:321-339 | The supervisor's commit leaves exactly the specified disk and outcome |
| ColdWindowTheorems.ConsumedAtMostOnce | scripts/upgrade_recovery.py:125-136 | Under every interleaving of owners and launchers, with exceptions and crashes at any file step, and window objects coming back whose memory cannot harm, at most one start is consumed, and the durable token says whether one was |
| ColdWindowTheorems.PermittedOnlyWhileOpen | scripts/upgrade_recovery.py:100-136 | In the same runs startup is permitted only between a durable request and a durable consumption, and nothing ever gives the token back |
| ColdWindowTheorems.DurablePhasesAdvance | scripts/upgrade_recovery.py:247-253 | In the same runs durable phases only move to strictly later ones; a started window is never restored and a recovering one never started |
| ColdWindowTheorems.RecoveryNeverReplays | scripts/upgrade_recovery.py:556-621 | In the same runs a consumed approval is refused forever; once a recovery is authorized on disk no start is ever permitted and no recovery can begin again |
| ColdWindowTheorems.RecoveryCrashRefusesStart | scripts/upgrade_recovery.py:595-621 | In the same runs a crash at any point inside a recovery leaves a state that refuses every start |
| ColdWindowTheorems.RestoredBytes | scripts/upgrade_recovery.py:379-394 | In the same runs a restored window with an install intent has program and receipt byte for byte as saved before it, and the saved copies never changed |
| ColdWindowTheorems.OrphanFreezes | scripts/upgrade_recovery.py:46-59 | Over all runs, whatever returning objects remember: a staging file that outlived its writer freezes the phase journal for good, nothing is overwritten and nothing is consumed |
| ColdWindowReturns.ReturnHarmlessExactly | scripts/upgrade_recovery.py:190-221 | From every state of a run in which only objects with harmless memories came back: a window object that takes the lock again takes nothing durable back and lets at most one start be consumed, in every continuation of that kind, if and only if its memory cannot harm or an orphaned staging file blocks every write; otherwise a run takes a phase or a request back |
| ColdWindowReturns.NotBehindIsHarmless | scripts/upgrade_recovery.py:203-221 | It is harmless in particular when the remembered phase is not behind the durable one |
| ColdWindowReturns.SecondStart | scripts/upgrade_recovery.py:427-443 | Counterexample: a run of a fresh deployment with two window objects that remember an installed window consumes two starts |
| ColdWindowReturns.StartAfterRecovery | scripts/upgrade_recovery.py:247-253 | Counterexample: a run of a fresh deployment authorizes a recovery on disk and afterwards permits and consumes a start |
| ColdWindowRecovery.RecoveryCompletes | scripts/upgrade_recovery.py:556-621 | On the window's own files: a recovery call that may begin, meets no staging file and is not cut off gets to its end, and changes exactly the journal, the approval and, after an install intent, program and receipt to the saved bytes |
| ColdWindowMirrors.RecoveryReturnsExactly | scripts/upgrade_recovery.py:255-262 | With the journal rows of its two phases: it returns, restored, if and only if the newest epoch of the journal is 1; otherwise it is stuck at its authorization, restores nothing, and neither a start nor another recovery passes its checks there |
| ColdWindowMirrors.PhaseReturnsExactly | scripts/upgrade_recovery.py:247-262 | A phase call whose file steps are done leaves the phase durable, and returns if and only if the newest epoch of the journal is 1 |
| ColdWindowMirrors.PhaseNeverReturns | scripts/upgrade_recovery.py:255-262 | Once the newest epoch is above 1 no phase call returns, after any further commits of anybody |
| ColdWindowMirrors.EnterAndRecord | scripts/upgrade_recovery.py:247-262 | Window and journal changed one after the other, cut off anywhere, are exactly the specified pair |
| ColdWindowMirrors.RecoverAndRecord | scripts/upgrade_recovery.py:556-621 | The same for a recovery and its two rows |
| ColdWindowPaths.ConsumptionLands | scripts/upgrade_recovery.py:125-136 | A permitted start is consumed by a launcher that holds the runtime lock and meets no staging file |
| ColdWindowHost.CallIsRun | scripts/upgrade_recovery.py:223-253 | A call, stopped by a refusal or by the death of its process, is a run of some of its first steps, so every theorem about runs holds of it |
| ColdWindowHost.Deployment.Call | scripts/upgrade_recovery.py:223-253 | A call takes its steps in order, raises at the first refused one, and reports exactly whether it got to its end |
| ColdWindowHost.Deployment.Begin | scripts/upgrade_recovery.py:223-245 | Marker before journal, cut off anywhere; a normal return means marker and journal are on disk for the same generation, so the window can be read |
| ColdWindowHost.Deployment.Stop | scripts/upgrade_recovery.py:264-287 | One journal before the manager's stop and one after it, cut off anywhere; a normal return means the proof of the stop is on disk |
| ColdWindowHost.Deployment.EnterPhase | scripts/upgrade_recovery.py:247-253 | Memory first, then the file, cut off anywhere; a normal return means the phase is on disk |
| ColdWindowHost.Deployment.Start | scripts/upgrade_recovery.py:427-443 | The request, cut off anywhere; the manager is asked only when the request is on disk |
| ColdWindowHost.Deployment.ConsumeStart | scripts/upgrade_recovery.py:125-136 | The caller may spawn exactly when a consumption became durable in this call |
| ColdWindowHost.Deployment.RecoverPrestart | scripts/upgrade_recovery.py:556-621 | Approval, authorization, two replacements after an install intent, final phase, cut off at a refusal or a crash anywhere; a normal return means the window is restored on disk |
| Dependencies.DependencySearch.VisitObject | scripts/upgrade_backup_contract.py:219-228 | The nested visit on its two mutable sets computes the recursive search, and ends on every graph, cyclic ones included |
| Dependencies.AcceptedIsSound | scripts/upgrade_backup_contract.py:216-231 | Acceptance implies that every dependency names an object and that a topological rank exists |
| Dependencies.SearchExact | scripts/upgrade_backup_contract.py:216-231 | With dependency paths of at most 128 objects, acceptance of a listing of all objects is exactly closed and acyclic |
| Dependencies.DependenciesFirstAccepted | scripts/upgrade_backup_contract.py:219-231 | Listed dependencies first, any such graph is accepted, however long its paths |
| Dependencies.OrderFreeExactly | scripts/upgrade_backup_contract.py:216-231 | A closed acyclic graph is accepted in every order of its objects and of their dependencies if and only if no dependency path holds more than 128 objects |
| Dependencies.LongIsRefused | scripts/upgrade_backup_contract.py:220-228 | For every longer path there is an order of the dependencies in which the graph is refused, whenever the start of the path is listed first |
| Dependencies.LongPathFirstRefused | scripts/upgrade_backup_contract.py:220-220 | A path of more than 128 objects that takes the first dependency at every step is refused for its depth when its start is listed first |
| Dependencies.ListingOrderDecides | scripts/upgrade_backup_contract.py:219-231 | Every chain of more than 128 objects is accepted listed one way round and refused the other |
| Seal.CheckGroup | scripts/upgrade_backup_contract.py:184-212 | Accepts exactly the groups with distinct ids and no source on or under another |
| Seal.ByIdIndexes | scripts/upgrade_backup_contract.py:216-216 | The index of an accepted group has every object under its own id, each with its own subtree |
| Seal.CheckEntries | scripts/upgrade_backup_contract.py:287-312 | The loops accept exactly the entry lists the rules describe |
| Seal.TargetsMirrorPaths | scripts/upgrade_backup_contract.py:294-302 | Targets lie under each other exactly as their paths do: the restore mapping is an order isomorphism, hence injective |
| Seal.TargetCheckRedundant | scripts/upgrade_backup_contract.py:304-304 | Accepted seals are the same with and without the duplicate-target check |
| Seal.PrefixesAreDirectories | scripts/upgrade_backup_contract.py:309-312 | Every proper prefix of an accepted path is an accepted directory entry |
| Seal.FilesAreLeaves | scripts/upgrade_backup_contract.py:309-312 | Nothing is accepted below a file entry, neither in the backup nor at the restore target |
| Seal.RootsAreObjects | scripts/upgrade_backup_contract.py:306-308 | The entries are a forest whose roots are exactly the group's objects, each at its own target and of its own kind |
| Seal.ObjectsStayApart | scripts/upgrade_backup_contract.py:294-302 | No restore target lies on or under a target of another object |
| TreeWalk.ScanTree | scripts/upgrade_inventory.py:275-293 | With children in any order, the stack loop ends with the recursive pre-order listing sorted by name and the sum of its file sizes, or with the first budget error |
| TreeWalk.CheckedExact | scripts/upgrade_inventory.py:284-290 | It succeeds exactly when the tree has at most `limit` nodes and no file above the file budget |
| TreeWalk.EqualListingsEqualTrees | scripts/upgrade_inventory.py:275-293 | Two trees have the same inventory exactly when they are the same tree up to the order of children, with names, kinds, modes and contents |
| TreeWalk.CopyExact | scripts/upgrade_backup.py:193-213 | Creating the nodes in walk order succeeds exactly when nothing stands at the destination: every parent comes before its children; the result holds exactly the source's names, kinds and contents |
| TreeWalk.Volume.CopyTree | scripts/upgrade_backup.py:193-213 | The copy loop does exactly that, and leaves an occupied destination untouched |
| Completion.FreshRuns | scripts/upgrade_manual_approval.py:410-488 | Over every run of claims and calls cut off anywhere, each record was made under an approval then in force, and a claim is archived only after the record of its binding and generation |
| Completion.RunKeeps | scripts/upgrade_manual_approval.py:410-488 | A binding goes from no record to one that never changes |
| Completion.AcceptedMeans | scripts/upgrade_manual_approval.py:410-488 | An accepted call has left the record that fits its documents, the claim archived under its generation, no stage, and any torn stage it met set aside |
| Completion.OtherApprovalRefused | scripts/upgrade_manual_approval.py:424-428 | A helper that states one branch: once there is a record, any other approval or packet is refused and changes nothing |
| Completion.RetryConverges | scripts/upgrade_manual_approval.py:410-488 | After a call that could succeed was cut off anywhere, the same approval succeeds if and only if the record is already there or the approval is still in force, and it returns the record that stays |
| Completion.AcceptedAgain | scripts/upgrade_manual_approval.py:424-433 | After an acceptance the same approval, expired or not, returns the same record and changes nothing |
| Mirrors.ConfirmReturnsExactly | scripts/upgrade_manual_approval.py:410-505 | With the journal row that ends it: an accepted first call returns if and only if the newest epoch of the journal is 1; record and archive are durable either way |
| Mirrors.ConfirmNeverReturns | scripts/upgrade_manual_approval.py:491-505 | Once the newest epoch is above 1 no call returns, after any further commits, and the journal is left alone |
| Mirrors.RetryReturnsExactly | scripts/upgrade_manual_approval.py:491-505 | Asking again for an acceptance whose row is there returns if and only if the newest epoch is 1 and the newest row still has the identity and binding of that row; nothing is written |
| Mirrors.SecondEpoch | scripts/upgrade_lifecycle.py:40-111 | Activation, suspension and the next activation lead from an empty disk to newest epoch 2 |
| Mirrors.ConfirmAndRecord | scripts/upgrade_manual_approval.py:410-505 | Completion and journal changed one after the other, cut off anywhere, are exactly the specified pair |
| Completion.StageShutsOthersOut | scripts/upgrade_manual_approval.py:465-478 | A whole record staged under one approval blocks its binding in every run that does not use that approval again before it expires |
| Completion.BlockReached | scripts/upgrade_manual_approval.py:458-478 | Such a state is reached from an empty directory by a claim and a call that stops after two file steps |
| Completion.BlockOpensExactly | scripts/upgrade_manual_approval.py:434-478 | In such a state a full call is accepted if and only if it has the staged approval and packet, both in force at both clocks, the live checks pass, the claim is pending and its generation is not archived |
| Completion.CompletionStore.ConfirmCompletion | scripts/upgrade_manual_approval.py:410-488 | One call, cut off after any number of file steps, leaves exactly the specified directory and outcome |
| Completion.CompletionStore.ArchiveClaim | scripts/upgrade_manual_approval.py:390-402 | Archiving leaves exactly the specified directory and outcome |
| Schema.SchemaChanges | scripts/upgrade_engine.py:134-157 | Accepts exactly the additive changes and returns the sorted report with one line for each added column and table |
| Schema.ReportDetermined | scripts/upgrade_engine.py:134-157 | The report does not depend on the order in which tables and columns were met |
| Schema.ComparesEqualToItself | scripts/upgrade_engine.py:134-157 | A snapshot against itself is accepted with nothing reported |
| Schema.StepsCompose | scripts/upgrade_engine.py:134-157 | Two accepted steps make an accepted one; it reports exactly the columns either step added to the old tables, and the new tables with their latest columns |
| Schema.TableKeptTransitive | scripts/upgrade_engine.py:142-152 | A table's rows are kept as a multiset under the composed column projection |
| Schema.NothingReportedExactly | scripts/upgrade_engine.py:153-156 | An accepted comparison reports nothing exactly when tables and columns are the same |
| Schema.RunKeepsData | scripts/upgrade_engine.py:134-157 | Over any run of accepted upgrades the last database still holds the first one's rows |
| BoundedLog.Log.constructor | scripts/ags-runtime.py:276-289 | Opens whatever a log with the same limits can leave, a directory left by a death included |
| BoundedLog.Log.WriteBytes | scripts/ags-runtime.py:306-313 | However the stream is split into calls and short writes, every byte goes to the files in order, and from a whole layout they go to the layout of the whole stream; every write ends |
| BoundedLog.Log.Rotate | scripts/ags-runtime.py:291-304 | The rename loop computes the specified rotation |
| BoundedLog.RotatedLayout | scripts/ags-runtime.py:291-304 | Rotating a full log gives exactly the layout with one more segment |
| BoundedLog.Retention | scripts/ags-runtime.py:276-313 | After n > 0 bytes the current file holds the last ((n - 1) mod maximum) + 1, segments are exactly `maximum` long, oldest to newest they are a suffix of the stream, of length between min(n, backups * maximum + 1) and (backups + 1) * maximum |
| BoundedLog.RotationCutAnywhere | scripts/ags-runtime.py:291-301 | However far a rotation got before a crash, it lost exactly the oldest file, and that only if it had moved another one onto it |
| BoundedLog.CrashesKeepOrder | scripts/ags-runtime.py:287-313 | Over any mix of writes and processes that died inside a rotation or right after opening, the files stay within their bounds and hold pieces of the stream in stream order |
| BoundedLog.KeptAfterDeaths | scripts/ags-runtime.py:276-313 | From an empty directory, after any writes, rotations and deaths inside them: the files are the end of the stream, and of the full segments before the current one as many are kept as without deaths, less at most one for each death |
| Drain.DrainSafety | server/replication_runtime.go:83-119 | For any number of handlers and closers in any interleaving: the counter is the number inside, the channel is closed at most once and exactly when stopping with nobody inside, and the store is closed only then and after the prune loop ended |
| Drain.NoAdmissionAfterDrain | server/replication_runtime.go:84-90 | Once draining began no handler ever gets in |
| Drain.NothingAfterStoreClose | server/replication.go:129-159 | Once the store was closed no handler and no prune ever runs |
| Drain.DrainCompletes | server/replication_runtime.go:93-100 | When the handlers inside return, in any order, the channel is closed |
| Drain.RetryCloses | server/replication_runtime.go:120-136 | After the handlers drained, a new call of close, say after a missed deadline, closes the store |
| Drain.ManagedReplication.Admit | server/replication_runtime.go:83-92 | The first critical section refuses exactly when stopping and otherwise counts the handler |
| Drain.ManagedReplication.Release | server/replication_runtime.go:93-100 | The deferred section keeps the counter exact and never closes a closed channel |
| Drain.ManagedReplication.StartDrain | server/replication_runtime.go:109-118 | Draining begins once and never closes a closed channel |
| Sweep.SweepEnds | server/git_maintenance.go:49-116 | Whatever answers busy: within 3 * ceil(n / 16) + 1 calls a sweep is over and the worker back at its start; every id came from a page exactly once, ascending, was tried one to three times, and was given up only after three busy answers |
| Sweep.MaintenanceWorker.Scan | server/git_maintenance.go:52-116 | One call of the closure moves cursor, batch and retries exactly as specified |
| Descendants.Enumerate | scripts/upgrade_adapter_launchd.py:75-110 | Ends on every process table and returns, without duplicates, exactly the processes reachable through child links from the named live ones |
| Descendants.ReadTable | scripts/upgrade_adapter_launchd.py:91-99 | The child lists hold exactly the rows of the table |
| ReleaseTags.PrintParses | scripts/release.ts:176-180 | A printed tag parses to what was printed exactly when its numbers are below 10^21, and otherwise not at all |
| ReleaseTags.ParsePrints | scripts/release.ts:176-180 | A parsed tag carries its text, date and rounded numbers; it prints as that text if and only if each numeral is how JavaScript prints its number |
| ReleaseTags.SafePrints | scripts/release.ts:176-180 | So every tag with numbers below 2^53 prints as its text |
| Numbers.PlusExactly | scripts/release.ts:212-213 | Adding one to a JavaScript number gives a greater one exactly below 2^53 and, below 2^54, on the numbers that leave remainder 2 modulo 4; otherwise it gives the number itself |
| Numbers.ShowReadsBack | scripts/release.ts:176-180 | Below 10^21 every whole number prints as a numeral that reads back as it |
| ReleaseTags.ReleaseLines | scripts/release.ts:191-207 | Refuses exactly when a stable tag has no candidate; otherwise gives one line per serial, ascending, with its candidates sorted |
| ReleaseTags.NextRcExactly | scripts/release.ts:209-214 | For tags in any order and of any size: the next candidate parses back and comes after every tag of its date if and only if the number it adds one to can be added to and the latest serial is below 10^21 |
| ReleaseTags.NextRcIsNew | scripts/release.ts:209-214 | Then it is none of the tags |
| ReleaseTags.NextRcRunsOut | scripts/release.ts:209-214 | An instance of the failing case: after candidate 2^53 the next candidate is that one again |
| ReleaseTags.PromotableIsLatest | scripts/release.ts:216-220 | The candidate offered for promotion is the last tag of its date |
| ReleaseTags.NothingPromotable | scripts/release.ts:216-220 | None is offered exactly when there is no tag or the last serial is already stable |

## Left out

- File-system facts beyond names, contents and link counts: permissions, ownership, symbolic links, `fsync` ordering after power loss, disk-full errors. A crash here is the process dying, so every step taken before it is visible after it.
- Event and document limits other than the number of events: byte sizes, free space, identifier and digest patterns, canonical JSON and the field-by-field validators of pins, bindings, hosts and approvals. A digest is the document itself under a constructor.
- Operation and event ids are kept as structured values, so two different prefixes can never form the same text.
- JournalRuns.ImmediateRetryExact: is about one retry right after the event; a retry that comes later, when other events followed, is `JournalRuns.LaterRetry`, which allows a refusal, because an expected epoch may have been overtaken.
- LifecycleTheorems.RunnerAtMostOnce: is about calls one after the other and excludes states with a blocked row and no generation, because the code itself runs again there; calls that overlap are in `LauncherRaces`.
- LauncherRaces.RacesBounded: a commit is one step there, so a call that loads in the middle of another one's commit, which by `JournalRuns.CommitCutExact` sees the old chain, the new one or a refusal, is not a case of its own.
- Commits of others are any rows but lifecycle rows, blocked rows and the launcher's own ids and effects; the repository has no other writer of those.
- `commit_phase`'s zero-digest check, `historize_marker`, the production host checks, and the in-memory fallback and home-directory journal beside `launcher_spawn`.
- The journal rows of cold phases and completions are composed with one call at a time in `ColdWindowMirrors` and `Mirrors`; they are not steps of the interleavings of `ColdWindow`. Moving a finished window away is not modelled.
- Completion.RetryConverges: is about the completion's own files; `Mirrors.ConfirmReturnsExactly` and `Mirrors.RetryReturnsExactly` say when the journal lets the call return.
- Completion.CompletionStore.ConfirmCompletion: ends before the journal row, which `Mirrors.ConfirmAndRecord` adds.
- ColdWindowTheorems.ConsumedAtMostOnce: is about runs in which only window objects come back whose memory cannot harm, because other returns break it, as `ColdWindowReturns.SecondStart` shows; it also leaves out harmful memories behind an orphaned staging file, which cannot do any harm.
- ColdWindowTheorems.PermittedOnlyWhileOpen: has the same condition, for the same reason.
- ColdWindowTheorems.DurablePhasesAdvance: has the same condition, for the same reason.
- ColdWindowTheorems.RecoveryNeverReplays: has the same condition, for the same reason.
- ColdWindowTheorems.RecoveryCrashRefusesStart: has the same condition, for the same reason.
- ColdWindowTheorems.RestoredBytes: has the same condition, for the same reason.
- ColdWindowReturns.ReturnHarmlessExactly: says nothing of states after an earlier harmful return, and looks only at continuations without another one; a window object gives the hostops lock back only between its calls and after its window locks.
- ColdWindowRecovery.RecoveryCompletes: is about the window's own files; `ColdWindowMirrors.RecoveryReturnsExactly` adds the journal rows.
- Cold window: the two raw copies and the recovery approval are single steps, so a torn copy or approval file, which a later call refuses to write over, is not modelled.
- Cold window: failures of `begin` before its marker, the stop command's evidence and the backup, restore and authorization callbacks are free choices of the machine; a second window of the same deployment is not modelled.
- Dependencies.SearchExact: requires dependency paths of at most 128 objects, because with longer ones some order is refused, as `Dependencies.OrderFreeExactly` shows; which of the orders are refused is not characterised.
- The entry-count budgets of groups and seals, and their fields that involve one value at a time (roles, kinds by role, capacity, retention, timestamps, the receipt), and the backup destinations' overlap check.
- TreeWalk: links, special files, metadata capture and the SQLite backup are not part of it.
- Schema: values are their printed form, so 1 and 1.0 differ here although Python's comparison takes them as equal; generated columns, which a row shows and the column listing does not, are excluded by the assumption that a row has one value per listed column.
- `migration_admission`, which looks the reported changes up in a registry, `verify_payload` and `metadata_tree`, which repeat the walk of `TreeWalk` for other facts.
- BoundedLog: a directory written under other limits, symbolic links among the segments, and failing writes.
- Drain: requests' own deadlines, `http.Server` shutdown, and a store whose close fails because of active leases.
- Sweep.SweepEnds: is for a fixed list of repositories and successful inventory queries; a failed query or a cancelled context ends a call early without moving the cursor past unvisited repositories. The per-repository decision whether maintenance is due is not modelled.
- ReleaseTags: numerals from about 1.8 * 10^308 on, which JavaScript reads as infinity.
- ReleaseTags.NextRcIsNew: requires that the candidate comes after every tag of its date, because otherwise it can be one of the tags; `ReleaseTags.NextRcExactly` says when it does.
- `Transaction.run`, server composition, configuration, readiness, the export command line and the maintenance transaction script: straight-line wiring or a weaker form of the cold window.
