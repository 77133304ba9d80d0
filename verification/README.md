# Verified models of the War Room

Aftergraph War Room keeps its state in files that must survive crashes, replaces its own executable, decides when an
agent may act on its own, and folds a stream of observations into what it shows. This project models those parts in
Dafny and proves what they promise. `dafny verify dfyconfig.toml` checks everything.

Code that the program runs step by step is modelled step by step, as classes whose methods change fields and loop as
the Go and JavaScript methods do; each such method is proved equal to a function of the old state, and the theorems
are about those functions and about runs of them. A crash is modelled by `power`: a computation performs that many
file operations and then the directory is frozen, so a statement for every `power` covers a crash after any operation.
Failing operations are records of booleans (`WriteFaults`, `RecoveryFaults`, `Faults`), so a statement for every
record covers every combination of failures.

| module | what it is about |
|---|---|
| `StateDirectory`, `JournalRecovery`, `AtomicWrite`, `StoreRuns`, `Store` | the crash-consistent state store: primary, backup, temporary file, journal, generations, recovery, and the mutators that publish a value once it is on disk |
| `StoreSharing` | which mutable objects the store shares with its callers |
| `Updater`, `UpdateRuns` | swapping the installed executable, with rollback, and one update after another |
| `DecisionAdmission`, `DecisionDays` | the two lock sections around the external decision service, under every interleaving, and the daily budget |
| `AgentProjection` | heartbeats, events and sources of agents: last writer by sequence, the newest events, summaries |
| `Connectors` | connector states, their transition table and the diagnostic window |
| `LogRotation` | the rotating log writer |
| `Observation`, `EventLog`, `Projection`, `Ingestion` | envelopes, the deduplicating log and its restart, the projector, and the pipeline that joins them |
| `HashChain` | the audit hash chain |
| `RealFacts`, `WilsonInterval`, `Egac` | the evidence-gated autonomy controller over exact reals |
| `Sequences`, `Sorting`, `Text`, `Wrappers` | searching and cutting sequences, library sorts, string operations, the option type |

## What the proofs found

Each of these is a theorem of the model, most of them with the exact condition.

- A write is safe exactly from a layout whose readable value is the primary's own. If only the backup is readable, one
  crash in the next write loses the value (`StoreRuns.SafeLayoutIff`).
- A crash between truncating and filling the journal a second time, or an undo that fails as well, leaves the old
  value readable in the backup, but no later recovery makes the layout safe again
  (`StoreRuns.StrandedStaysReadableButUnsafe`).
- `writeJSON` accepts names that recovery refuses: a value written under a name without `.json` stays behind in the
  backup after a crash (`StoreRuns.ExtensionDecidesRecovery`).
- The generation counter wraps at 2^64; the next write then reports success while readers still get the old value
  (`StoreRuns.CommittedWriteReadsIff`).
- Recovery trusts a higher generation without decoding it, and so can discard a readable primary
  (`JournalRecovery.RecoveryKeepsExposedIff`).
- A recovery interrupted behind its promotion leaves a stale file that no later one removes
  (`JournalRecovery.StaleIsCleared`).
- The store clones what it hands out and what `saveAgents` and `addMetric` are given, but `upsertAgent` and
  `addAgentEvent` store the caller's slice and map as they are. A report that is taken in survives what its caller does
  to it later exactly when it has no map and no non-empty slice (`StoreSharing.UpsertIsIsolatedIff`,
  `StoreSharing.EventIsIsolatedIff`).
- The decision budget holds between counter resets. As the clock is read before the lock, a late reader resets the
  counter twice: a calendar day stays within its budget exactly when it is not left and read again, or is read no more
  often than the budget (`DecisionDays.DailyBudgetHoldsIff`).
- `unknown` is missing from the session rank table and so ties with `blocked` on rank; the comparator is then a strict
  weak order, and sorts every arrangement of the sessions, exactly when no two sessions of one of these two states
  with different heartbeats meet one of the other (`AgentProjection.SessionOrderIff`,
  `AgentProjection.SessionsAreSortedIff`).
- Past 120 agents somebody is dropped (`AgentProjection.EveryAgentPresentIff`) and forgotten: when heard again, only
  what was delivered since then counts, late or not (`AgentProjection.HeartbeatsConverge`). And a source that reports
  without a time makes its recorded time go back (`AgentProjection.SourceRegressesIff`).
- A torn last line of the event log swallows the next event on restart (`EventLog.TornTailDecidesNext`), and a digest
  computed for an envelope without one is forgotten by a restart (`EventLog.RestartInvisibleIff`).
- An event whose write to the log fails is remembered all the same: its retry, or another event with its digest, is
  answered as a duplicate, although the file does not have it, until the next restart (`EventLog.RetryIsLostIff`).
- An update that is cut short right behind the replacing rename leaves an unchecked executable installed; the next
  update begins by removing the old one kept aside, and can lose it. Every further update keeps a working executable
  exactly when the installed one works or nothing is installed (`UpdateRuns.EveryUpdateSurvivesIff`,
  `UpdateRuns.CutThenUpdateLoses`).
- The pipeline counts an ingestion that fails after its append both as persisted and as rejected
  (`Ingestion.BooksBalanceIff`).
- Block heights stop at 51 (`Projection.ChainIsLinkedWindow`), and replacing a repository from the outside can leave
  verifications that name an old head (`Projection.ReplacementKeepsHeadsExactIff`).
- The autonomy controller's documentation says that self-assertion alone never permits autonomy. With the default
  threshold of 19/20 a single uncalibrated `tier_0` does, and with 1/20 it takes 29
  (`Egac.SelfAssertionPermitsAutonomyIff`). It also says that higher tiers dominate lower ones; `tier_3` is worse than
  `tier_2` (`Egac.HigherTierCanRaiseBound`). One pass of a fully trusted tier outweighs any number of failures
  (`Egac.OnePassingTestDecides`), nothing ever halts under the default threshold (`Egac.HaltIsPossibleIff`), raising
  the cost of a wrongly passed defect loosens the gate (`Egac.CostlierMistakesLoosenTheGate`), and a badly calibrated
  tier makes a failure reassuring (`Egac.MissesMakeFailureReassuring`). The code is modelled as it is in all of these.

## Model

| member | source | states |
|---|---|---|
| `StateDirectory.FileNamesAreInjective` | desktop/store.go:39-41 | No recoverable state name's primary, backup, temporary or stale file is another name's file or the journal. |
| `StateDirectory.KnownFilesAreRecoverable` | desktop/store.go:39-41 | The five state files have names that recovery accepts. |
| `StateDirectory.ExposedIsNewestDecodable` | desktop/store.go:161-194 | A reader gets a value iff the primary or the backup decodes; it is one of those two, no decodable copy is newer, and a tie goes to the primary. |
| `StateDirectory.LegacyYieldsToEnvelope` | desktop/store.go:92-112 | A file from before envelopes stays readable until a decodable copy with a generation appears. |
| `Store.StateStore.ReadJSON` | desktop/store.go:161-194 | The loop over the two copies returns the exposed value, tells a missing file from an unreadable one, and reports migration of legacy content. |
| `JournalRecovery.AttemptIsAllOrPending` | desktop/store.go:281-324 | Wherever one recovery stops, by power or a failing operation, either the same copy would still win under the same journal, or recovery is done; a reported success is done. |
| `JournalRecovery.RecoveryConverges` | desktop/store.go:281-324 | After any number of interrupted or failing attempts, one completed attempt leaves what one uninterrupted recovery leaves, and further attempts change nothing; other files are untouched and the temporary file never wins. |
| `JournalRecovery.QuarantineTouchesNoCopy` | desktop/store.go:252-264 | A torn or invalid journal is set aside and no primary or backup of any file changes, wherever the attempt stops; when it completes, the visited temporary files are gone. |
| `JournalRecovery.JournalIsQuarantinedIff` | desktop/store.go:266-324 | A completed recovery acts on a journal of version 1 in one of the three phases of a write for a plain `.json` name, and then quarantines nothing and leaves no temporary file; any other journal, and a torn one, is kept aside. |
| `JournalRecovery.CompletesIff` | desktop/store.go:281-324 | An attempt that is not cut short completes iff the journal can be read and then set aside, or the backup put in place where that is due. |
| `JournalRecovery.StaleIsCleared` | desktop/store.go:296-323 | A completed recovery that promotes a newer backup leaves no stale file; any other does not touch it. |
| `JournalRecovery.RecoveryKeepsExposedIff` | desktop/store.go:296-324 | A completed recovery keeps the value readers saw iff it is not the case that an undecodable backup claims a higher generation than a decodable primary. |
| `JournalRecovery.PendingKeepsExposed` | desktop/store.go:281-324 | Short of that layout, an unfinished recovery changes nothing a reader sees. |
| `JournalRecovery.RecoveryRestoresSafetyIff` | desktop/store.go:281-324 | A completed recovery leaves a layout the next write may start from iff the surviving copy decodes or nothing does. |
| `AtomicWrite.WriteStops` | desktop/store.go:326-429 | For every crash point and every combination of failing operations: the new value is installed exactly when its rename took effect; otherwise the old primary is in place, or in the backup under a journal recovery acts on, or stranded, exactly as `Installs` and `Stranded` say. A reported success has installed its value and retired the journal. |
| `AtomicWrite.MoveAsideStops` | desktop/store.go:374-399 | Where moving the primary aside can stop, and exactly when the journal no longer guards the moved primary. |
| `AtomicWrite.InstallStops` | desktop/store.go:400-428 | Where installing can stop, with its undo. |
| `AtomicWrite.PrepareStops` | desktop/store.go:344-369 | Up to the journalled intent, both durable copies and every other file are as they were. |
| `AtomicWrite.WriteCleansUp` | desktop/store.go:344-427 | A write that the process survives leaves no temporary file once one was opened, and retires its journal except after exactly the failures recovery is for. |
| `StoreRuns.InterruptedWriteReads` | desktop/store.go:326-429 | From a safe layout, a reader after a crash anywhere in a write sees the new value iff it was installed, else the old one, even without recovery. |
| `StoreRuns.InterruptedWriteRecoverableIff` | desktop/store.go:326-429 | Exactly the stranded states are out of recovery's reach. |
| `StoreRuns.JournalLeft` | desktop/store.go:344-427 | Wherever a write stops, its journal is absent, torn, or names the file and its new generation in one of the three phases, the last of them only with the value installed. |
| `StoreRuns.RestartQuarantinesIff` | desktop/store.go:252-324 | After a write that stopped anywhere, a completed recovery sets the journal aside iff the write left it torn; otherwise it keeps no record, the journal is gone, and so is the temporary file if a journal named it. |
| `StoreRuns.FaultlessWriteSucceedsIff` | desktop/store.go:326-334 | A write in which nothing fails succeeds iff the name is plain and not the journal's. |
| `StoreRuns.SafeLayoutIff` | desktop/store.go:374-375 | A crash anywhere in a write followed by recovery shows the old value or the installed one, for all crash points, failures and attempts, iff the write started from a safe layout. |
| `StoreRuns.AttemptKeepsExposed` | desktop/store.go:281-324 | One recovery attempt, finished or not, valid journal or not, changes nothing a reader sees, and a completed one makes the layout safe. |
| `StoreRuns.StoreRefinesCells` | desktop/store.go:281-429 | Over every run of writes to any files, with crashes and failures anywhere in writes and recoveries and recovery before the next write, each file reads as one atomic cell that changes exactly when an installed write changes it; the only stops shut out are those that strand a readable primary. |
| `StoreRuns.ExposedGenerationNeverDecreases` | desktop/store.go:335-343 | Along such a run the generation a reader sees never goes back. |
| `StoreRuns.StrandedStaysReadableButUnsafe` | desktop/store.go:225-243 | After a crash in the excluded window the value stays readable through any recovery attempt, and no attempt makes the layout safe. |
| `StoreRuns.ExtensionDecidesRecovery` | desktop/store.go:266-279 | After a crash behind the move of the primary, a completed recovery restores safety iff the name ends in `.json`; the value stays readable either way. |
| `StoreRuns.CommittedWriteReadsIff` | desktop/store.go:335-343 | An installed value reads back iff the counter had headroom or the old primary's generation was at most one. |
| `Store.StateStore.WriteJSON` | desktop/store.go:326-429 | The write, file operation by file operation, is `AtomicWrite.Write` of the disk it started from. |
| `Store.StateStore.PrepareWrite` | desktop/store.go:344-369 | Temporary file, then journal, is `AtomicWrite.Prepare`, on every failure path. |
| `Store.StateStore.MovePrimaryAside` | desktop/store.go:374-399 | Dropping the backup and moving the primary is `AtomicWrite.MoveAside`, on every failure path. |
| `Store.StateStore.WritePersistenceJournal` | desktop/store.go:225-243 | A journal write is a truncation and a fill, and may fail before either. |
| `Store.StateStore.RecoverPersistenceJournal` | desktop/store.go:281-324 | Recovery, file operation by file operation, is `JournalRecovery.Recover`. |
| `Store.StateStore.RecoverFile` | desktop/store.go:296-323 | The three branches of recovery by generations. |
| `Store.StateStore.QuarantinePersistenceJournal` | desktop/store.go:252-264 | Setting the journal aside and removing the temporary files of the known names, recorded as a load issue. |
| `Store.StateStore.AddMetric` | desktop/store.go:536-552 | Memory becomes the new window iff the write succeeded, and the file is written with exactly that window. |
| `Store.StateStore.MutateAgents` | desktop/store.go:593-605 | A failing change writes nothing; otherwise memory follows the success of the write. |
| `Store.WindowKeepsLatest` | desktop/store.go:536-552 | The metric window ends with the added sample, under its own time if it has one, after the latest earlier ones in order, and drops only what does not fit in 2000. |
| `Store.SucceedsIff` | desktop/store.go:396-429 | A write that the process survives reports success iff its value was installed and the commit was journalled. |
| `Store.MutatorRefinesCell` | desktop/store.go:536-605 | After any calls on any files with any failures, a file existing or not before its first call, each file's value in memory is that of its last successful call, and the file reads as the last installed one; they differ only when a commit journal could not be written. |
| `Store.MemoryAgreesIff` | desktop/store.go:536-605 | After any such calls memory and disk agree on a file iff the last call that installed a value is the last successful one or wrote what memory had anyway; no success comes after the last installation. |
| `Store.MemoryIsWhatSucceeded` | desktop/store.go:536-605 | After any samples and agent changes with failures, the window is the last 2000 samples whose call succeeded, after those from before, and the agent state is the result of the successful changes in order. |
| `Store.RunIsItsCalls` | desktop/store.go:536-605 | A run of samples and agent changes is the run of the calls it comes to, on disk and in memory, so that each file follows its own cell although all share one journal. |
| `Store.MemoryIsOnDiskIff` | desktop/store.go:536-605 | After every run of samples and agent changes with failures, both files read as the values in memory iff on each of them that is so. |
| `Store.MemoryIsOnDisk` | desktop/store.go:536-605 | So both files read as the values in memory after every such run whose commit journals were written, whatever else failed. |
| `StoreSharing.CloneStringMap` | desktop/store.go:439-448 | The copied map is new and equal. |
| `StoreSharing.CloneRows` | desktop/store.go:450-471 | The copy denotes the same rows (an empty slice becomes nil) and shares no object with anything that existed before. |
| `StoreSharing.RowStore.Get` | desktop/store.go:574-579 | A getter's result denotes the stored rows and is made of new objects only. |
| `StoreSharing.RowStore.Save` | desktop/store.go:580-592 | What the store keeps of an argument is made of new objects only. |
| `StoreSharing.GetterIsIsolated` | desktop/store.go:553-557 | After arbitrary writes to everything a getter returned, the store denotes what it did. |
| `StoreSharing.SaveIsIsolated` | desktop/store.go:580-592 | After arbitrary writes to everything that was passed to a save, the store denotes what was saved. |
| `StoreSharing.AddIsIsolated` | desktop/store.go:536-552 | The same for an added sample's labels. |
| `StoreSharing.RowStore.Upsert` | desktop/agents.go:122-175 | A late report leaves the clone of what was stored; any other is stored in its agent's place, or behind the others, with the caller's own slice and map and the start it does not name, next to new copies of the rest. |
| `StoreSharing.RowStore.AddEvent` | desktop/agents.go:177-203 | A retained event leaves the clone of what was stored; any other is stored with the caller's own map. |
| `StoreSharing.TakesInIff` | desktop/agents.go:138-191 | Which reports are late, what is stored of any other, with the start it does not name kept, and which events are retained already. |
| `StoreSharing.UpsertIsIsolatedIff` | desktop/agents.go:122-175 | What an upsert stores survives the caller's later writes through the slice and the map iff the report was late or has neither a map nor a non-empty slice. |
| `StoreSharing.UpsertIsIsolated` | desktop/agents.go:122-175 | In those two cases it survives arbitrary writes. |
| `StoreSharing.EventIsIsolatedIff` | desktop/agents.go:177-203 | What an insertion of an event stores survives the caller's later writes iff the event was retained already or has nothing to write through. |
| `Updater.UpdateNeverLosesExecutable` | desktop/internal/updater/apply.go:58-141 | Wherever an update stops, the installed executable's bytes are at the install path, next to it or in the archive; the install path is empty, holds them, or matches the plan; state files and candidate are untouched. |
| `Updater.UpdateOutcomesAreExhaustive` | desktop/internal/updater/apply.go:58-141 | No error iff applied, and what each combination of receipt flags then means for the install, previous and archive paths. |
| `Updater.AppliedIff` | desktop/internal/updater/apply.go:58-141 | An update that is not cut short is applied iff nothing goes wrong and the new version is healthy, and is rolled back iff the replacement, its verification, its health check or the archiving goes wrong after all before went well, and the old executable can be put back. |
| `Updater.StageLeftIff` | desktop/internal/updater/apply.go:85-112 | It leaves a staged copy lying about iff the copying broke off, or the copy could not replace the executable moved aside. |
| `Updater.CompatibleIff` | desktop/internal/updater/state.go:21-45 | The preflight accepts iff the bounds are positive and in order, the walk has no error, and every JSON file, in whatever case it is spelled, is readable, regular and has no version outside the bounds. |
| `Updater.AppliedUpdateKeptStateCopy` | desktop/internal/updater/state.go:47-80 | After an update that got as far as the swap, no walked state file is outside the version range of the contract, and the backup holds an exact copy of each; when the walk lists every state file, that is all of them. |
| `Updater.MissingInstallKeepsPrevious` | desktop/internal/updater/apply.go:58-84 | Without an installed executable the update refuses and an earlier `previous` stays. |
| `UpdateRuns.WorkingExecutableSurvives` | desktop/internal/updater/apply.go:58-141 | Over any number of updates with any failures, of which only the last may be cut short, an executable that works stays at the install path, next to it or in the archive. |
| `UpdateRuns.CompletedUpdatesAreReady` | desktop/internal/updater/apply.go:58-141 | After updates that ran to their end the installed executable works, or nothing is installed. |
| `UpdateRuns.UnreadyMeansCut` | desktop/internal/updater/apply.go:109-128 | Only an update that was cut short leaves anything else: the planned artifact, unchecked, with the old executable aside or archived. |
| `UpdateRuns.EveryUpdateSurvivesIff` | desktop/internal/updater/apply.go:82-141 | While an executable that works is on disk, every further update keeps one, however it ends, iff the installed one works or nothing is installed. |
| `UpdateRuns.CutThenUpdateLoses` | desktop/internal/updater/apply.go:88-141 | From every working installation there are two updates, the first one cut short, after which no executable that works is left. |
| `Updater.Host.ApplyUpdate` | desktop/internal/updater/apply.go:58-141 | The update, operation by operation with its restore closure, is `Updater.Apply`. |
| `Updater.Host.VerifyArtifact` | desktop/internal/updater/apply.go:35-56 | Accepts exactly a regular file of the planned size and digest. |
| `Updater.VerifiedIsPlanned` | desktop/internal/updater/apply.go:35-56 | With a digest that no two files share, the verified artifact is the planned one, byte for byte. |
| `Updater.Host.PreflightState` | desktop/internal/updater/state.go:21-45 | Accepts exactly a contract with sensible bounds under which every walked JSON file is readable and every envelope's version is in range. |
| `Updater.Host.SnapshotState` | desktop/internal/updater/state.go:47-80 | The walk copies the state files up to the first failure. |
| `Updater.Host.CopyFile` | desktop/internal/updater/state.go:82-105 | A copy truncates, writes as much as it could, and reports success only for all of it. |
| `Updater.SnapshotStops` | desktop/internal/updater/state.go:47-80 | Taking the snapshot changes snapshot files only. |
| `DecisionAdmission.SingleFlight` | desktop/typesafe_policy.go:43-106 | Under every interleaving at most one evaluator is between its lock sections, and starts and finishes alternate. |
| `DecisionAdmission.BudgetHoldsBetweenResets` | desktop/typesafe_policy.go:63-106 | Whatever positive budgets are read during a run, unforced evaluations finished since the last counter reset never exceed the largest. |
| `DecisionAdmission.RepeatsAreSpaced` | desktop/typesafe_policy.go:53-62 | No unforced evaluation starts within the minimum interval of the end of the previous one with the same fingerprint, nor with as many evaluations counted since the reset as the positive budget it read; the setting may change during the run. |
| `DecisionAdmission.AdmittedIff` | desktop/typesafe_policy.go:29-76 | After any run, an arrival is admitted iff it counts, nobody is in flight, the log shows no recent evaluation of the same state and budget is left since the reset; being forced waives the last two. |
| `DecisionAdmission.DecisionIsReported` | desktop/typesafe_policy.go:57-106 | At every step of every run the report follows what happened: the end of an evaluation replaces it with its own reason, outcome, calls since the reset and what is left of its budget, a refusal for want of budget says so, and nothing else changes it. |
| `DecisionAdmission.DayIff` | desktop/typesafe_policy.go:41-47 | The days of the budget are those of the calendar in UTC. |
| `DecisionDays.DailyBudgetHoldsIff` | desktop/typesafe_policy.go:41-47 | For every order in which days reach the lock and every positive budget: all runs that read the days in that order and no larger budget keep a given day within it iff that day is not left and read again, or is read no more often than the budget. |
| `DecisionDays.DayReadInOneGoKeepsBudget` | desktop/typesafe_policy.go:41-47 | In every run a day that is not left and read again stays within the largest budget read. |
| `DecisionDays.NoMoreThanRead` | desktop/typesafe_policy.go:41-106 | In every run a day counts no more unforced evaluations than arrivals read it. |
| `DecisionAdmission.DecisionGate.TryReserve` | desktop/typesafe_policy.go:29-76 | The first lock section, early exits included, is `Reserve`. |
| `DecisionAdmission.DecisionGate.Record` | desktop/typesafe_policy.go:82-106 | The second lock section is `Commit`. |
| `DecisionAdmission.ArrivalCases` | desktop/typesafe_policy.go:29-76 | What an arrival does case by case, the day change coming first whatever the verdict. |
| `AgentProjection.HeartbeatsConverge` | desktop/agents.go:122-175 | Every delivery order, with duplicates, anything in between and any number of agents, leaves no agent listed twice, and each entry is its agent's heartbeat of the greatest sequence (its last one while none has a sequence) among what was delivered since the agent was entered, every field as reported, with blanks filled in, progress within bounds and a start once known kept; only its state may have gone stale. |
| `AgentProjection.StayingAgentConverges` | desktop/agents.go:122-175 | An agent that is never dropped is listed exactly once iff it reported, with the heartbeat of the greatest sequence it ever reported, whatever happens to others. |
| `AgentProjection.FewAgentsConverge` | desktop/agents.go:83-85 | While at most 120 agents report nobody is dropped, so all are there and all carry their greatest sequence. |
| `AgentProjection.EveryAgentPresentIff` | desktop/agents.go:83-85 | Every agent that reported is still there iff at most 120 did. |
| `AgentProjection.OrderDoesNotMatter` | desktop/agents.go:122-175 | After two deliveries of the same heartbeats, in any orders and multiplicities, an agent that neither drops is listed in both or in neither, with the same payload, and with the same state except where one of the two has gone stale. |
| `AgentProjection.KeptWithinLimits` | desktop/agents.go:79-85 | Never more than 120 sessions or 250 events. |
| `AgentProjection.StoredSessionsAreNormal` | desktop/agents.go:122-175 | Whatever is delivered, every stored session has its fields filled, a progress between 0 and 1 and a known state. |
| `AgentProjection.StateNamesAreReadIff` | desktop/agents.go:15-31 | A state is read from exactly its words, in any case and with any white space around them. |
| `AgentProjection.CountsCoverEverySession` | desktop/agents.go:49-71 | The counts are over all sessions given, also those that are dropped: running, waiting and blocked are those reporting it that are not silent, stale those that are silent or say so, and every session that is left is idle or unknown. The summary is dated now and keeps the sources. |
| `AgentProjection.SummaryIsRanked` | desktop/agents.go:72-78 | Unless two unknown sessions with different heartbeats meet a blocked one, or the other way round: blocked and unknown sessions are listed before running, then waiting, idle, stale and offline ones, those heard from last first within a state; 120 are kept, and every dropped one comes after all of them in that order. |
| `AgentProjection.SessionOrderIff` | desktop/agents.go:72-78 | On any sessions the comparator is a strict weak order iff that does not happen. |
| `AgentProjection.SessionsAreSortedIff` | desktop/agents.go:72-78 | Every arrangement of the given sessions comes out in order iff that does not happen; the `if` holds for every sort that keeps to the comparator, the `only if` is about the stable insertion sort of the model. |
| `AgentProjection.NewestEventsAreKept` | desktop/agents.go:177-203 | The stored events are exactly the 250 newest accepted ones, latest first, although duplicates are only looked for among the retained ones; the accepted ones are exactly those delivered no more than five minutes ahead, as delivered, with what they lacked filled in. |
| `AgentProjection.EventOrderDoesNotMatter` | desktop/agents.go:177-203 | Two delivery orders that accept the same events store the same list. |
| `AgentProjection.NewestIsUnique` | desktop/agents.go:79-82 | There is only one list of the newest events. |
| `AgentProjection.SourceRegressesIff` | desktop/agents.go:98-120 | A source's recorded time goes back iff it reports without a time; other sources do not change. |
| `AgentProjection.SourceIsRecorded` | desktop/agents.go:98-120 | A reported source is recorded as reported, unless it reports from before what is known of it. |
| `AgentProjection.AgentBoard.Summarize` | desktop/agents.go:37-87 | The in-place refresh, count, sort and truncation is `Summarized`. |
| `AgentProjection.AgentBoard.UpsertAgent` | desktop/agents.go:122-175 | The in-place upsert is `Upserted`, and fails exactly without an identifier. |
| `AgentProjection.AgentBoard.AddEvent` | desktop/agents.go:177-203 | The in-place insertion is `EventAdded`, and fails exactly for events too far ahead. |
| `AgentProjection.AgentBoard.UpdateSource` | desktop/agents.go:98-120 | The in-place update is `SourceUpdated`. |
| `Connectors.RecordsTellTheirHistory` | desktop/connector_state.go:47-113 | Each record is what its accepted reports say: state, when it last changed, stable-since iff live, and failures since the last live report. |
| `Connectors.TransitionsFormPath` | desktop/connector_state.go:25-33 | Each connector's transitions over the whole history are a connected path of the table from nothing to its current state. |
| `Connectors.RefusedIff` | desktop/connector_state.go:25-67 | After any reports, one is refused iff it names no connector, or says stale of a connector last reported disconnected or connecting. |
| `Connectors.StaleOnlyAfterData` | desktop/connector_state.go:25-33 | A connector goes stale only from live or degraded, or as the first thing heard of it. |
| `Connectors.WindowIsLatestHistory` | desktop/diagnostics.go:34-46 | The diagnostic window is always the last 128 transitions of the whole history. |
| `Connectors.BlanksMakeNoOtherReport` | desktop/connector_state.go:34-57 | White space around an identifier, a state or a reason makes neither another connector nor another report. |
| `Connectors.ReportSaysWhatWasGiven` | desktop/connector_state.go:47-57 | A report names exactly what is left of the given identifier and reason without the white space at their ends, says that a blank reason is unspecified, and keeps the rest as given. |
| `Connectors.PhaseIsReadIff` | desktop/connector_state.go:34-40 | A state is read from exactly its name, in any case and among white space; whatever names none is degraded. |
| `Connectors.ConnectorHub.TransitionConnector` | desktop/connector_state.go:47-113 | The field-by-field update with its refusals is `Next`. |
| `Connectors.ConnectorHub.RecordDiagnosticEvent` | desktop/diagnostics.go:34-46 | The in-place shift and append is `Pushed`. |
| `LogRotation.FilesAreSuffixOfStream` | desktop/logging.go:29-70 | Backups from the oldest down and then the current file are a suffix of everything written, and all of it until the row is full; at most backups + 1 files, none longer than the limit or the longest write. |
| `LogRotation.WriteLosesOnlyOldest` | desktop/logging.go:29-56 | One write loses exactly the oldest backup, and only when it rotates. |
| `LogRotation.RotationMoves` | desktop/logging.go:57-70 | Rotation drops the oldest backup and moves every other file up by one. |
| `LogRotation.RotatingWriter.Rotate` | desktop/logging.go:57-70 | The descending loop of renames is `Rotated`. |
| `LogRotation.RotatingWriter.Write` | desktop/logging.go:29-56 | The write is `Written`. |
| `Observation.NormalizedForeignIsValid` | services/ingestion/src/pipeline.js:101-158 | Every foreign event becomes a valid envelope with provenance and a named actor, keeps whatever it says itself, prefers a repository to a subject and the first commit, kind and time it names, and has everything else filled in. |
| `EventLog.RestartRebuilds` | services/persistence/src/store.js:33-65 | Splitting and parsing the written log rebuilds the events, the identifiers and the carried digests. |
| `EventLog.RestartInvisibleIff` | services/persistence/src/store.js:33-95 | A restart changes no later accept or reject decision iff every event in memory is in the file and every remembered digest is carried by some envelope. |
| `EventLog.RestartsLeaveNoTrace` | services/persistence/src/store.js:33-95 | When envelopes carry digests and no write fails, restarts anywhere in a run leave the log, on disk and in memory, as if there had been none, with identifiers and digests unique. |
| `EventLog.LostIsFailedSinceRestart` | services/persistence/src/store.js:70-95 | After any offers, failing or not, and restarts, what memory has and the file has not is exactly what failed to be written since the last restart. |
| `EventLog.RetryIsLostIff` | services/persistence/src/store.js:75-92 | After any such run a retry is answered as a duplicate of an identifier that the file does not have iff an event of that identifier failed to be written since the last restart; likewise one with a new identifier and a digest the file does not have; the next restart makes both acceptable again. |
| `EventLog.TornTailDecidesNext` | services/persistence/src/store.js:44-63 | After a torn last line, the next event is read back iff the glued line happens to parse as it. |
| `EventLog.AppendKeepsConsistent` | services/persistence/src/store.js:70-95 | Memory, log file and the two seen-sets stay consistent, and identifiers and digests unique, also when the write fails. |
| `EventLog.AppendReports` | services/persistence/src/store.js:70-95 | Each answer of an append is so: appended events end memory and file and are counted, a failed write ends memory only, duplicates and unidentified envelopes change nothing. |
| `EventLog.PollingDeliversOnce` | services/persistence/src/store.js:115-131 | Polling from the last seen event while the log grows delivers every later event once, in order. |
| `EventLog.ReplayIsNested` | services/persistence/src/store.js:100-110 | Replaying to an earlier moment is replaying the replay to a later one. |
| `EventLog.ReplayIsExact` | services/persistence/src/store.js:100-110 | A replay holds exactly the dated events up to its moment, inclusive. |
| `EventLog.SinceUnknownEvent` | services/persistence/src/store.js:115-131 | Without a known event a reader gets exactly the later events, or without a moment the latest 50. |
| `EventLog.EventStore.InitFromDisk` | services/persistence/src/store.js:33-65 | The loading loop is `Load`. |
| `EventLog.EventStore.AppendEvent` | services/persistence/src/store.js:70-95 | The append, with a write to the file that may throw after memory was updated, is `Append`. |
| `Projection.ObservationKeepsHeadsExact` | services/projection/src/projector.js:171-220 | One observation keeps verifications on exact heads; a verification becomes stale iff the head of its repository moves; stale is kept and nothing else changes. |
| `Projection.HeadsStayExact` | services/projection/src/projector.js:171-280 | Over every run of observations, every verification that is not stale names its repository's current head, and stale is never undone. |
| `Projection.HeadFollowsObservation` | services/projection/src/projector.js:191-220 | From any state, an observation makes known at most its own repository, under seven zeros, and moves at most its head, to its commit; the record says when that was and keeps the rest. |
| `Projection.ObservationInvalidatesExactly` | services/projection/src/projector.js:260-280 | From any state, exactly the verifications bound to the head that moved away become stale, for a reason that names both heads, and nothing else about any of them changes. |
| `Projection.AgentsTellTheirHistory` | services/projection/src/projector.js:222-241 | Over any run an agent's record is the last action, the subjects and the number of the observations it acted in. |
| `Projection.GraphTellsHistory` | services/projection/src/projector.js:243-249 | Over any run the graph gains exactly the nodes and edges of the observations that did not throw. |
| `Projection.ReplacementKeepsHeadsExactIff` | services/projection/src/projector.js:134-158 | Replacing a repository keeps that iff no counting verification names another head of it. |
| `Projection.RunKeepsHeadsExactIff` | services/projection/src/projector.js:134-220 | Over every run of observations and replacements mixed, heads are exact at every point iff no replacement met a counting verification that names another head. |
| `Projection.ChainIsLinkedWindow` | services/projection/src/projector.js:175-189 | Over every run the retained blocks are the last 50 of a history linked from the zero hash that ends at the last hash, one block per observation; heights stop at 51. |
| `Projection.WindowIsLinked` | services/projection/src/projector.js:175-189 | The retained window is linked from the hash before it. |
| `Projection.AlertsMatchInvalidated` | services/projection/src/projector.js:260-280 | There is an alert, of high priority and naming both heads, for exactly the verifications bound to the old head. |
| `Projection.AttentionAfterObservation` | services/projection/src/projector.js:313-317 | The queue holds the old alerts and exactly the new ones, and is ordered by weight unless the observation threw. |
| `Projection.StateProjector.ApplyObservation` | services/projection/src/projector.js:171-255 | The step-by-step update, throwing or not, is `Applied`. |
| `Projection.StateProjector.InvalidateVerifications` | services/projection/src/projector.js:260-280 | The loop marks and alerts exactly the bound verifications. |
| `Ingestion.ProjectionIsFoldOfLog` | services/ingestion/src/pipeline.js:28-96 | At every await point of every interleaving of ingestions, with failing writes, the projection is the fold of the events written to the log file so far, in its order, each once. |
| `Ingestion.BooksBalanceIff` | services/ingestion/src/pipeline.js:28-96 | Received equals rejected plus deduplicated plus persisted iff no ingestion has failed after its append; the error window and the other counters stay in step. |
| `Ingestion.IngestionIsRecorded` | services/ingestion/src/pipeline.js:28-96 | One ingestion changes log, projection and every counter exactly as its screening and the log's answer say. |
| `Ingestion.ProjectedWaitOrAreSettled` | services/ingestion/src/pipeline.js:62-95 | Over every run each projected ingestion waits for the engine or has been answered or failed by it. |
| `Ingestion.ErrorWindowIsLatest` | services/ingestion/src/pipeline.js:178-187 | Over every run the window holds the last 50 of all errors ever recorded, and the rejections count them all. |
| `Ingestion.DuplicateChangesNothing` | services/ingestion/src/pipeline.js:55-61 | A duplicate by identifier or digest is counted as such and changes nothing else. |
| `Ingestion.EnvelopeIsScreened` | services/ingestion/src/pipeline.js:32-56 | An envelope passes iff nothing is missing and its actor, if any, is named; it is then marked observed and otherwise unchanged, save that an occurrence more than five minutes ahead becomes the present and is marked as corrected. |
| `Ingestion.ForeignIsScreened` | services/ingestion/src/pipeline.js:101-158 | Any other event is screened as the envelope made of it and always passes; nothing at all throws. |
| `Ingestion.LoggedEnvelopesAreScreened` | services/ingestion/src/pipeline.js:32-56 | What reaches the log has every field the contract asks for, is observed, has a named actor if any, and is at most five minutes ahead. |
| `Ingestion.IngestionPipeline.Ingest` | services/ingestion/src/pipeline.js:28-96 | One ingestion up to the engine call is `Begin`. |
| `Ingestion.IngestionPipeline.ScreenEvent` | services/ingestion/src/pipeline.js:101-176 | Normalising, validating, correcting the clock and resolving identities, with their ways to fail, is `Screen`. |
| `Ingestion.IngestionPipeline.RecordRejection` | services/ingestion/src/pipeline.js:178-187 | The new window is the last 50 of the old one followed by the new error. |
| `HashChain.GenerateChain` | algorithms.js:247-278 | The generating loop builds `Generate`, whose chain verifies and has one block for each of the first 15 events. |
| `HashChain.GeneratedChainVerifies` | algorithms.js:247-278 | Every generated chain verifies and records the first 15 events in order, field by field. |
| `HashChain.VerifyChain` | algorithms.js:280-297 | The audit is intact iff every block's link and content hold, else it names the first block that does not and which of the two is wrong. |
| `HashChain.AuditIsUnique` | algorithms.js:280-297 | That leaves the audit no choice. |
| `HashChain.EqualRootsEqualChains` | algorithms.js:280-297 | Two verifying chains with one root hash have the same length and the same content, links and hashes in every block. |
| `HashChain.EqualRootsEqualEvents` | algorithms.js:247-297 | Two generated chains have one root iff they record the same first 15 events. |
| `HashChain.EditIsLocated` | algorithms.js:280-297 | Rewriting the content of block k of a verifying chain makes the audit report block k. |
| `WilsonInterval.WilsonInvertsScoreTest` | packages/egac/src/index.js:53-64 | The interval contains exactly the proportions that the score test accepts. |
| `WilsonInterval.Wilson` | packages/egac/src/index.js:53-64 | Zero, low, the observed proportion, high and one are in order, and low is below one. |
| `Egac.TallyCountsOwnRecords` | packages/egac/src/index.js:340-348 | After any history a tier's tally counts exactly its own records and detections. |
| `Egac.HistoryInForce` | packages/egac/src/index.js:138-147 | After any history a sensitivity is a probability; it is the listed one below ten records and below one from then on. |
| `Egac.FlawlessRecord` | packages/egac/src/index.js:138-147 | A calibrated tier that detected all n of its records is trusted for exactly n out of n + 1.95996 squared. |
| `Egac.ProvableZeroIff` | packages/egac/src/index.js:253-274 | Over every calibration history the bound is zero iff the gate has a tier listed with sensitivity 1 and fewer than ten records. |
| `Egac.MoreTiersNeverRaiseBound` | packages/egac/src/index.js:253-274 | The bound does not depend on the order of tiers, multiplies over added ones and never rises. |
| `Egac.MissBoundInUnit` | packages/egac/src/index.js:253-274 | The bound is in the unit interval. |
| `Egac.ReplacementHelpsIff` | packages/egac/src/index.js:253-274 | Replacing a tier does not raise the bound iff the new one is at least as sensitive or the rest is already zero. |
| `Egac.HigherTierCanRaiseBound` | packages/egac/src/index.js:22-30 | The listed order of tiers is not the order of sensitivities. |
| `Egac.Round8Facts` | packages/egac/src/index.js:269-273 | The reported bound keeps order and the unit interval, is off by at most half a unit, and shows zero exactly below that. |
| `Egac.RoundsToDecimals` | packages/egac/src/index.js:205-273 | Reported figures have eight or six decimals and are off by at most half a unit of the last one. |
| `Egac.UpdateIsBayesRule` | packages/egac/src/index.js:205-239 | The sequential update is Bayes' rule for the whole chain. |
| `Egac.UpdatesCompose` | packages/egac/src/index.js:205-239 | The posterior after a prefix, as a prior for the rest, gives the posterior of the whole. |
| `Egac.EvidenceOrderDoesNotMatter` | packages/egac/src/index.js:205-239 | The posterior does not depend on the order of the evidence. |
| `Egac.RatioDirectionIff` | packages/egac/src/index.js:174-191 | A pass lowers the odds, and a failure raises them, iff sensitivity and specificity add up to at least one. |
| `Egac.ListedTiersAreInformative` | packages/egac/src/index.js:22-30 | Every uncalibrated tier, also one that is not listed, is such a tier. |
| `Egac.ListedRatios` | packages/egac/src/index.js:174-191 | What a pass and a failure of each uncalibrated tier, also one that is not listed, do to the odds, as exact factors. |
| `Egac.ListedOdds` | packages/egac/src/index.js:34-40 | The odds of a defect each plane starts with, and the default threshold of 19/20. |
| `Egac.MissesMakeFailureReassuring` | packages/egac/src/index.js:174-191 | A calibrated one need not be: after ten misses a failure lowers the odds. |
| `Egac.EvidenceMovesPosterior` | packages/egac/src/index.js:205-239 | One more piece of evidence anywhere in a chain moves the posterior in its own direction iff its tier is informative or nothing is left to move. |
| `Egac.MoreTiersNeverRestrict` | packages/egac/src/index.js:290-310 | Adding verification tiers never moves the decision toward halting. |
| `Egac.EvidenceMovesDecision` | packages/egac/src/index.js:290-310 | Informative passes never move the decision toward halting and failures never away from it. |
| `Egac.HaltIsPossibleIff` | packages/egac/src/index.js:92-95 | Some evidence and gate halt iff the threshold is at most one half; with the default nothing ever halts. |
| `Egac.RiskierPlanesAreStricter` | packages/egac/src/index.js:34-40 | The planes are ranked by risk, and a riskier one is never decided more freely. |
| `Egac.PosteriorZeroIff` | packages/egac/src/index.js:174-239 | The posterior is zero iff a tier with sensitivity one passed. |
| `Egac.OnePassingTestDecides` | packages/egac/src/index.js:290-310 | One such pass with that tier in the gate permits autonomy under every positive threshold, whatever else failed. |
| `Egac.SelfAssertionPermitsAutonomyIff` | packages/egac/src/index.js:290-310 | A gate of n uncalibrated self-assertions permits autonomy at 1/20 iff n is at least 29, and at the default 19/20 iff n is at least 1, each with the posterior below the threshold, for any plane and chain. |
| `Egac.CostlierMistakesLoosenTheGate` | packages/egac/src/index.js:92-95 | Raising the cost of a false positive never moves a decision toward halting. |
| `Egac.PlaneIff` | packages/egac/src/index.js:103-121 | A repository is of the first of the four planes one of whose words its lower-case name contains, and of infrastructure if it contains none. |
| `Egac.ContextOnlyRaisesPlane` | packages/egac/src/index.js:103-121 | Text around a repository's name can only move it to a plane that is tried earlier. |
| `Egac.Controller.RecordCalibration` | packages/egac/src/index.js:340-348 | The in-place tally stays the record of the whole history. |
| `Egac.Controller.SequentialUpdate` | packages/egac/src/index.js:205-239 | The loop computes the posterior and odds of the whole chain, and its trace shows, rounded, the state after every prefix. |
| `Egac.Controller.ComputeFcrBound` | packages/egac/src/index.js:253-274 | The loop computes the rounded product with every cumulative share, and says provably zero exactly when the history makes it so. |
| `Egac.Controller.Decide` | packages/egac/src/index.js:290-310 | The decision, plane, posterior and bound are those the lemmas are about: autonomy iff the larger of the two figures is below the threshold, halting iff it is at least twice the threshold. |

## Left out

- HTTP handlers, event streams, the GitHub, WORKS, Ollama and TypeSafe clients, host telemetry, browser launch, Telegram and bridge daemons: input and output around libraries.
- Browser code: rendering, animation and audio.
- SHA-256, JSON encoding and parsing, redaction, operating-system locks and `fsync`: parameters, or abstract content with the property used stated where it is used (`Faithful` codecs, `Ideal` hashers); renaming and removing a file are atomic steps, and the file system does not reorder them.
- Hashes in `HashChain` and `Projection` are the numbers their hexadecimal digits write; the all-zero hash is 0.
- Read errors of files that exist (permissions, media): a state file is absent, decodable or damaged; `writeJSON` computing generations over an unreadable file is not modelled.
- Removals whose error the code ignores (`_ = os.Remove`) are modelled as succeeding.
- The directory sync and permission bits of the store and the updater.
- Windows path separators in state file names; the separator is `/`.
- Text normalisation is ASCII; Unicode case folding and white space are not part of this model.
- `saveSettings`, `saveGitHub` and `setProbes`: the same shape as `AddMetric` and `MutateAgents`; the clamps on settings are branch-by-branch constants.
- Loading at start-up beyond `readJSON`: per-file load issues and migrations are recorded by code that has no further effect.
- Store.StateStore.MutateAgents: the change is a function of the snapshot; that it may keep a reference to it is treated in `StoreSharing` alone.
- StoreSharing.RowStore.Upsert: one shape of row stands for samples, sessions and events; the summary that re-sorts and cuts the list afterwards is in `AgentProjection` alone.
- StoreRuns.StoreRefinesCells: excludes exactly the crash window and double failures of `Stranded` where the primary was readable, exhausted counters, and names recovery refuses; each exclusion has its own theorem above.
- Updater.UpdateNeverLosesExecutable: the install, previous, stage and archive paths and the candidate are pairwise distinct and nobody else writes them; a backup directory equal to the state directory is not modelled, and restoring the state directory is not something the code does.
- Decision service contents, provider error classes and the state snapshot sent to it: text assembly without a deep property; the call itself is the gap between two lock sections.
- DecisionAdmission.BudgetHoldsBetweenResets: for runs that read positive budgets only; a budget of zero is none, and admits without a bound, as `AdmittedIff` says.
- AgentProjection.OrderDoesNotMatter: start and heartbeat times are not compared, as the order of deliveries decides which of several starts is kept, nor is the state of a session that went stale.
- AgentProjection.SummaryIsRanked: not under the condition of `SessionOrderIff`, which is exact for the order and, over all arrangements, for the sort.
- AgentProjection.AgentBoard.UpsertAgent: the projection is described as if every write of the snapshot succeeds; what a failed one does is `Store.StateStore.MutateAgents`.
- The library sort is modelled as a stable insertion sort; the statements about Go code hold for any permutation in order.
- Snapshots of the event store and of the projector's baseline, the getters of the services, and `updateRepositories` beyond `ReplacementKeepsHeadsExactIff`.
- The projector's display fields (plane, role, titles, descriptions); graph nodes and edges are typed records where `projector.js` joins their parts with colons.
- EventLog.EventStore.AppendEvent: a write that throws has written nothing; what a partly written line does is `TornTailDecidesNext`.
- Ingestion.BooksBalanceIff: the intelligence engine is answered or fails; what it computes is not modelled.
- UpdateRuns.WorkingExecutableSurvives: all updates use one backup directory; with one for each, earlier archives remain as well. A health check that passes has run an executable that works, and an empty file is none.
- Connectors: calls are sequential and the clock is not zero; diagnostic texts are stored without redaction.
- LogRotation.FilesAreSuffixOfStream: without input or output errors.
- Floating-point rounding in the autonomy controller: numbers are exact reals and `toFixed` is the rounding it documents, so a product that underflows to zero is not provably zero here. Costs are not negative. Plane priors are constants, as no code overrides them.
- Hoeffding's sample size and the calibration status report use logarithms and only report; `decide`'s texts and time stamp are left out.
- Heuristic scoring (risk, triage, stalls, collisions, ranking, learning dynamics), ontology seeds, the integration registry, credentials and secrets: constants and tables without a deeper invariant.
