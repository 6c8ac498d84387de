# Verified model of the monitoring service's shared state

The service monitors URLs, APIs, ports, certificates, heartbeats and browser checks. Several
processes share one Postgres database and one Redis, and what can go wrong is mostly in
the state they share. This project models that state and proves what every interleaving keeps.

How to read it:

- A table is a map from id to row, one SQL statement or transaction is one atomic step, Redis is
  a map from key to expiry, and time is an integer that only moves forward.
- Code that updates state step by step is a class whose methods are proved against functions;
  the interleaved systems (`Action`, `Apply`, `After`) run the same functions one statement at
  a time, so a theorem about `After(actions)` is about every order in which any number of
  actors can move, including actors that stop for ever in the middle.
- A property that is false of the code is stated with its exact condition and, beside it,
  a concrete run that breaks it.

The modules:

- Browser-check runs: `QaStore` (tables and statements), `QaRuns` (posters, master jobs, agent
  requests and sweeps, interleaved), `QaRunInvariants`, `QaVerdicts`, `QaMasters`, `QaAlerts`,
  `QaSweeps`, `QaScenarios`.
- Dispatch: `Slots` (bucket claims in Redis), `Cadence` (the tick that finds due monitors and
  claims them), `Firing` (exactly when a tick dispatches again), `TickGuard` (overlap guard and escalation), `Arithmetic`.
- Backup: `Paging`, `Lines`, `BackupTables`, `BackupRestore`, `BackupRoundTrip`, `BackupExport`.
- `Heartbeat`, `KeyCache`, `EventBus`, `RateLimit`, `Redact`, `Import` with `ImportProofs` and
  `ImportNames`;
  `Options` and `Sets` are shared.

## Where the code and its comments disagree

The model follows the code.

- `src/services/backup-restore.ts:14` says the target must be empty. The probe counts nine tables,
  so an instance with only heartbeats, channels or status pages passes it, and its rows stay
  beside the restored ones or make the restore fail (`RoundTripIff`).
- `src/middleware/auth.ts:85-87` calls revocation instant. It is, exactly if no validation of the
  key was between its lookup and its cache fill, and only on the process that served the
  revocation (`RevocationIsInstantIff`).
- `src/scheduler.ts:297` says a failed enqueue leaves the monitor due. The due query takes the
  latest start time of any status, so the next dispatch is a full interval later (`DispatchCadence`).
- `src/scheduler.ts:207-209` says the guard stops a second tick from running beside the first.
  `Promise.all` rejects at the first failing sub-tick while the others run on, so a tick runs
  beside another exactly while some failed tick still has sub-ticks running (`OverlapsIff`).
- `src/constants.ts:16-17` says an abandoned run is marked FAILED and alerted. The code writes
  ABANDONED and never alerts (`AbandonedNeverAlerts`).
- `src/services/import.ts:13-14` says one bad row never derails the rest. A `null` element in any
  list but the channels throws again inside its own handler, and a channel reference that no
  template can print throws outside any, as does a monitor with more channels than one
  statement can bind; each rolls everything back (`CommitsIff`).
- `src/routes/agent.ts:51-54` calls posting a result twice harmless. The second post overwrites
  the row, and two that differ in being down can leave a verdict its rows contradict
  (`VerdictsSoundIff`). The route checks no status, so an agent can also write the word that
  `src/constants.ts:52-58` keeps for rows of abandoned runs (`MarksSoundIff`).
- `src/routes/auth.ts:24` names 2048 the most keys a map holds. An empty oldest key is falsy and is
  never dropped, so behind it the map grows with every new key (`AlwaysBoundedIff`); an empty
  `X-Real-IP` header makes that key.
- `src/utils/fetch-errors.ts:85` speaks of redacting secret values. A `?` does not start a pair inside
  another one, so behind `?x` the value of `?token=abc` is copied out, exactly if the first pair
  left open has no sensitive name of its own (`HiddenIff`).
- The due query's `::int` cast rounds, so a monitor is due half a second early and is dispatched
  then, exactly if the clock has entered a later bucket or Redis was away (`ShortGapIff`).

## Model

| member | source | states |
|---|---|---|
| `QaStore.Store.CreateRun` | src/db/repositories/qa-project.repo.ts:204-206 | adds exactly one open run under an unused id and touches nothing else |
| `QaStore.Store.CreateExecution` | src/db/repositories/qa-project.repo.ts:190-201 | adds exactly one open row under an unused id and touches nothing else |
| `QaStore.Store.CreateAgentRun` | src/routes/agent.ts:114-129 | one run that expects as many tests as requested, and one distinct running row per test, in order; the rows of the run are exactly those |
| `QaStore.Store.RunProgress` | src/db/repositories/qa-project.repo.ts:219-233 | counts exactly the completed and the down rows of the run, `None` for a run that is gone |
| `QaStore.Store.ClaimRunAlert` | src/db/repositories/qa-project.repo.ts:245-255 | true exactly when the run is there with no alert time; it then has the outcome and the alert time, both new; otherwise nothing changes |
| `QaStore.Store.FindAbandonedRuns` | src/db/repositories/qa-project.repo.ts:273-286 | runs that have no outcome and no alert time and started before the cutoff, and no other; the smallest ids, ascending, as many as the limit allows, none missed below it |
| `QaStore.Store.MarkRunTestsAbandoned` | src/db/repositories/qa-project.repo.ts:299-306 | the run's rows that lack a completion, and only they, read "abandoned" and are completed now; they are the ones named |
| `QaStore.Store.FinalizeUnfinishedQaRun` | src/services/qa-run-closeout.ts:38-58 | after winning the claim the run and every row of it that lacked a completion are closed, and nothing else; losing it changes no row |
| `QaStore.Store.TickAbandonedQaRuns` | src/scheduler.ts:747-765 | a run that started at or after the cutoff and its rows are unchanged; of the open ones from before it the hundred with the lowest ids end ABANDONED with every row completed, so all of them if they are no more |
| `QaStore.Store.WriteQaAgentResult` | src/services/agent-result-writers.ts:95-126 | rejects another region's row and a status the column refuses; completes exactly this row with the status as the column keeps it, and hands over for alerting exactly a run this very post finalized, complete, and FAILED exactly when a completed row is down |
| `QaStore.DownWords` | src/db/repositories/qa-project.repo.ts:219-233 | a status is down exactly if it reads FAILED, FAILURE or ERROR in any case; what a running or an abandoned row carries is not |
| `QaStore.Store.MaybeAlertOnQaRunTransition` | src/services/transition-detector.ts:224-294 | compares with the latest earlier verdict of the same project and region, never with an abandoned run |
| `QaRunInvariants.KeepsSafe` | src/services/agent-result-writers.ts:95-126 | any step of any poster, master, request or sweep keeps rows linked, claims recorded once, stamps under abandoned runs only, and no completion lost |
| `QaVerdicts.NoLostCompletion` | src/services/agent-result-writers.ts:115-123 | for any number of posters and any interleaving with sweeps: all rows complete and no poster still on its way implies the run is finalized and exactly one claim ever returned true |
| `QaVerdicts.Finality` | src/db/repositories/qa-project.repo.ts:245-255 | once finalized, no later step of anyone changes the run row, and no second claim of it succeeds |
| `QaVerdicts.OutcomeIsTheClaim` | src/db/repositories/qa-project.repo.ts:245-255 | in every reachable state outcome and alert time are both null or both set, set exactly when one claim succeeded, to that claim's outcome |
| `QaVerdicts.AbandonedRowsHaveAbandonedRunsIff` | src/services/qa-run-closeout.ts:38-58 | all through a run of the system every row marked abandoned belongs to an ABANDONED run, exactly if no post that took effect said "abandoned" of a row whose run was not |
| `QaScenarios.MarksSoundIff` | src/services/agent-result-writers.ts:95-113 | for any set of reports: in every interleaving rows marked abandoned belong to ABANDONED runs, exactly if no report says that word |
| `QaScenarios.ForgedMarkUnderSuccess` | src/routes/agent.ts:66-69 | for every row, a run where such a report leaves it marked abandoned under a SUCCESS run |
| `QaScenarios.MarkUnderVerdict` | src/services/agent-result-writers.ts:95-123 | under a verdict a row is marked abandoned exactly if a report written to it said so |
| `QaVerdicts.LosingSweepChangesNothing` | src/services/qa-run-closeout.ts:38-58 | a sweep that loses the claim changes no row |
| `QaVerdicts.RegionVerdictIsSound` | src/db/repositories/qa-project.repo.ts:219-233 | if repeated reports agree on being down, whatever their texts, a region run with a verdict owns exactly the rows it expected, each completed by a report, and is FAILED exactly when some report is down |
| `QaScenarios.VerdictsSoundIff` | src/services/agent-result-writers.ts:95-123 | for any set of reports: verdicts are sound in every interleaving exactly if no row is to get two reports that differ in being down |
| `QaScenarios.ConflictingReportsSplitTheVerdict` | src/services/agent-result-writers.ts:95-123 | for any row and any two reports of it that differ in being down, a run whose verdict contradicts the row |
| `QaScenarios.PosterAlone` | src/services/agent-result-writers.ts:95-126 | a poster left alone does what the sequential method does |
| `QaScenarios.SweepAlone` | src/services/qa-run-closeout.ts:38-58 | a sweep left alone does what the sequential method does |
| `QaSweeps.SweepIsTick` | src/scheduler.ts:747-765 | left alone, a whole sweep of the interleaved system, query and all runs, does what the sequential tick does |
| `QaSweeps.AbandonedWasOld` | src/scheduler.ts:747-752 | in every run of the system: whatever run was abandoned had been found open by a sweep's query and started before that query's cutoff, or is a master's that closed it itself |
| `QaSweeps.StartedWhenCreated` | src/db/repositories/qa-project.repo.ts:204-206 | in every run of the system a run's start is the time at which it was created |
| `QaSweeps.TestAlone` | src/processors/qa-project.processor.ts:115-192 | a master's test that gets a row and finishes leaves that row completed with its status, and the status with the job |
| `QaSweeps.MasterAlone` | src/processors/qa-project.processor.ts:260-287 | left alone, a master whose tests all reported claims their fold, has it answered if it won, and exits |
| `QaSweeps.AbortAlone` | src/processors/qa-project.processor.ts:308-320 | an aborting master closes its run out as a sweep would |
| `QaSweeps.ExitedIsFinalized` | src/processors/qa-project.processor.ts:260-320 | in every run of the system a master that is through with its statements leaves a finalized run, whichever way it went |
| `QaMasters.FoldMeaning` | src/processors/qa-project.processor.ts:265-273 | the master's fold is FAILED exactly when some test failed or errored |
| `QaMasters.RowsAgree` | src/processors/qa-project.processor.ts:265-285 | on the same results the master's fold and the region path's count-based verdict are equal |
| `QaMasters.MasterVerdictIsSound` | src/processors/qa-project.processor.ts:260-285 | in every run, a master verdict means every test reported, and it, the results and the rows agree |
| `QaAlerts.DecisionIsEdge` | src/services/transition-detector.ts:224-266 | whenever it is asked, the previous-run query answers with the edge of the verdict history |
| `QaAlerts.AlertsAreTheEdges` | src/services/transition-detector.ts:224-266 | for runs finalized in start order, once no poster and no master still owes one of them to the detector: the alerts are an outage at each SUCCESS then FAILED and a recovery at each FAILED then SUCCESS of the verdict history with abandoned runs deleted, and they strictly alternate |
| `QaAlerts.AlwaysAccounted` | src/services/agent-result-writers.ts:115-125 | in every reachable state each verdict ever won, by a poster or by a master, was answered by the detector or is owed to it by an actor |
| `QaAlerts.OwedIsAnsweredNext` | src/processors/qa-project.processor.ts:283-285 | the next move of the poster or master that owes a run has it answered |
| `QaAlerts.AbandonedNeverAlerts` | src/constants.ts:41-49 | an abandoned run is never decided and no actor will ever hand it to the detector |
| `QaAlerts.LateResultsStaySilent` | src/services/qa-run-closeout.ts:38-58 | whatever arrives later for an abandoned run, it stays abandoned and no alert is ever decided or owed |
| `QaAlerts.DecisionIsFinal` | src/services/transition-detector.ts:224-294 | no later step changes a decision |
| `QaAlerts.QueryIsStable` | src/services/transition-detector.ts:250-265 | asked again at any later time, the query gives the decision on record |
| `Slots.GrantedIffTtlPassed` | src/scheduler.ts:112-126 | in every run with Redis up a claim is granted exactly when no dispatch of its slot is less than one TTL old |
| `Slots.OneDispatchPerBucket` | src/scheduler.ts:103-126 | any number of schedulers whose claims are made in their bucket dispatch each (type, monitor, region, bucket) at most once |
| `Slots.PreparedIsCurrent` | src/scheduler.ts:103-110 | a scheduler prepares one claim for each region, of the bucket of that moment, and until the next bucket begins it is made in its bucket |
| `Slots.WindowHoldsAtMostOneMore` | src/scheduler.ts:681-694 | a window of k intervals holds at most k + 1 dispatches of a monitor in a region, with no help from ages, so also for projects whose last run never moves |
| `Slots.DispatchedOnceIff` | src/scheduler.ts:112-126 | in every run with Redis up each slot is dispatched at most once exactly if no claim runs a TTL or more after the latest dispatch of its slot |
| `Slots.LateClaimDispatchesTwice` | src/scheduler.ts:112-126 | a claim held up past its bucket dispatches the bucket again, so the condition is needed |
| `Cadence.Scheduler.ClaimDispatchSlot` | src/scheduler.ts:112-126 | granted when Redis throws or the slot is not held; a grant holds it for the TTL |
| `Cadence.Scheduler.FindDue` | src/db/repositories/url-monitor.repo.ts:140-163 | ages that mark exactly the due monitors, from the latest start of any status |
| `Cadence.Scheduler.DispatchOne` | src/scheduler.ts:279-304 | a granted claim writes one execution, which a failed enqueue turns FAILED; a refused one changes nothing |
| `Cadence.Scheduler.TickUrlMonitors` | src/scheduler.ts:307-360 | one tick over the fleet, all ages read at its start |
| `Cadence.FleetTick` | src/scheduler.ts:307-360 | a tick leaves a monitor alone or dispatches every one of its targets, and a full interval after the last start it always dispatches: being due then means a fresh bucket |
| `Cadence.DispatchCadence` | src/scheduler.ts:307-360 | consecutive dispatches are less than interval + gap apart, at least interval - 500 ms, and at least the interval on whole seconds, even with Redis down or enqueues failing |
| `Cadence.FirstTickFires` | src/db/repositories/url-monitor.repo.ts:140-163 | a monitor that never ran is dispatched by the first tick |
| `Cadence.FiringServesEveryTarget` | src/scheduler.ts:70-74 | every dispatch serves the master or every attached region |
| `Firing.ReadyWithRedis` | src/scheduler.ts:307-360 | with Redis up, ready means a full interval has passed, or all but half a second of it and the bucket is a later one |
| `Firing.LastFiring` | src/scheduler.ts:112-126 | in every run the bucket of the last start stays claimed for an interval if Redis took the claim, and otherwise lapses within half a second |
| `Firing.FiresIff` | src/scheduler.ts:307-360 | in every run, with Redis coming and going, a tick dispatches the monitor again exactly if it is ready |
| `Firing.ShortGapIff` | src/db/repositories/url-monitor.repo.ts:140-163 | consecutive dispatches are less than an interval apart exactly if a tick falls in the last half second of it, in a later bucket or without Redis at either end |
| `Firing.RoundingShortensTheInterval` | src/db/repositories/url-monitor.repo.ts:140-163 | a 60 s monitor dispatched again after 59.5 s |
| `TickGuard.Ticker.Fire` | src/scheduler.ts:211-216 | a tick starts exactly when none is awaited |
| `TickGuard.Ticker.Finish` | src/scheduler.ts:217-268 | the new failure count and level, and whether the stalled message is logged |
| `TickGuard.AlarmsAtDoublings` | src/scheduler.ts:245-268 | for every sequence of outcomes the stalled message is logged exactly at 3, 6, 12, 24, ... consecutive failures, and the level is the largest of these reached |
| `TickGuard.AtMostOneBody` | src/scheduler.ts:211-268 | one tick is awaited at a time, and sub-ticks of any other tick belong to a failed one |
| `TickGuard.NoFailureNoOverlap` | src/scheduler.ts:207-216 | while no tick has failed, everything in flight belongs to one tick |
| `TickGuard.StartsBesideAnotherIff` | src/scheduler.ts:207-216 | in every run a tick that starts runs beside another exactly if some failed tick still has sub-ticks running |
| `TickGuard.OverlapsIff` | src/scheduler.ts:211-268 | at any moment ticks overlap exactly while one is awaited and a failed one still has sub-ticks running |
| `TickGuard.FailureLeavesIff` | src/scheduler.ts:218-267 | a failure leaves sub-ticks behind exactly if the failing one was not the last running |
| `TickGuard.FailedTickOverlaps` | src/scheduler.ts:218-267 | after a failed tick the next one runs beside nine sub-ticks of it |
| `Lines.DrainLineBuffer` | src/services/backup-restore.ts:62-73 | the non-empty lines that a newline ends, and what follows the last newline |
| `Lines.DrainSplits` | src/services/backup-restore.ts:62-73 | draining a text in two steps is draining it at once |
| `Lines.LinesFromText` | src/services/backup-restore.ts:75-79 | every line of the text, the last one unless blank |
| `Lines.LinesFromStream` | src/services/backup-restore.ts:263-272 | for every cutting into chunks, the lines of the whole text |
| `Lines.ReadBack` | src/services/backup-export.ts:46 | reading what was written gives the same lines |
| `Lines.LastLineCounts` | src/services/backup-restore.ts:75-79 | a last line that no newline ends is yielded if it starts a JSON object, and dropped if it is spaces |
| `Paging.TableRows` | src/services/backup-export.ts:50-69 | the paged loop ends and emits exactly the plain query: every passing row once, in id order, for every page size |
| `Paging.CompleteIffPositive` | src/services/backup-export.ts:54-57 | the export misses no passing row exactly if every one has an id above 0 |
| `BackupTables.ParentsFirst` | src/services/backup-shared.ts:78-112 | every foreign key points to an earlier table with serial ids, and configuration never references executions |
| `BackupTables.Hydrate` | src/services/backup-shared.ts:146-153 | strings in date columns become dates, everything else is kept |
| `BackupTables.HydrateUndoesJson` | src/services/backup-shared.ts:146-153 | hydration undoes JSON exactly for rows with no text in a date column and no date elsewhere |
| `BackupRestore.BatchIsRowByRow` | src/services/backup-restore.ts:147-154 | a multi-row INSERT, whose foreign keys are checked at its end, does what its rows do one at a time |
| `BackupRestore.Instance.Flush` | src/services/backup-restore.ts:147-154 | a batch of at most 500 rows goes in as its rows would one by one, or fails as they would |
| `BackupRestore.Instance.Take` | src/services/backup-restore.ts:156-174 | one line of the loop, with rows still waiting, is one line taking effect at once |
| `BackupRestore.Instance.RestoreLines` | src/services/backup-restore.ts:135-196 | for every sequence of lines: what is committed, the counts and whether it fails are those of the loader without batches; a failed load changes nothing |
| `BackupRestore.Instance.RestoreStream` | src/services/backup-restore.ts:253-272 | the same from text in chunks, however cut |
| `BackupRestore.Instance.SetSequences` | src/services/backup-restore.ts:180-192 | every serial sequence is set to the greatest restored id, or 1 |
| `BackupRestore.NextIdIsFree` | src/services/backup-restore.ts:180-192 | the next id a table hands out collides with no restored row |
| `BackupExport.TableNdjson` | src/services/backup-export.ts:39-69 | one line for each of the table's rows in the scope, each once |
| `BackupExport.Ndjson` | src/services/backup-export.ts:72-78 | a manifest, then every row of the scope exactly once, tables in the fixed order; which rows that is says `BackupRoundTrip.DumpHolds` |
| `BackupRoundTrip.DumpHolds` | src/services/backup-export.ts:50-76 | a dump holds the manifest and one line for each row of the database but sessions; config-only, without executions; windowed, with just the executions that started at or after their table's cutoff |
| `BackupRoundTrip.RestoreOfDump` | src/services/backup-restore.ts:135-178 | restoring a dump commits all its rows over what the manifest check left, exactly when each row's key is free and its parents are in; otherwise nothing |
| `BackupRoundTrip.LoadsIffClosed` | src/services/backup-shared.ts:78-112 | into empty tables a dump loads exactly if its rows are closed under their foreign keys |
| `BackupRoundTrip.ClosedIff` | src/services/backup-export.ts:50-57 | config-only and full dumps are closed; a windowed one exactly if every kept test execution's run is kept |
| `BackupRoundTrip.RoundTripIff` | src/services/backup-restore.ts:43-109 | restoring a full dump rebuilds exactly the database without sessions, and a config-only dump the database without sessions and executions, each table counted, if and only if the target holds no row, or holds one in a probed table and force is given |
| `BackupRoundTrip.WindowRestoresIff` | src/services/backup-export.ts:50-57 | a windowed dump restores into an emptied target exactly if every recent test execution's run is recent, each by its own table's cutoff; what it then leaves is the configuration and exactly the recent history |
| `BackupRoundTrip.RefusedFile` | src/services/backup-restore.ts:83-178 | a file without a manifest, or with one line that is malformed, of an unknown table, before any manifest, a manifest of another format or migration, unforced over an occupied target, or a text that is no date in a date column, restores nothing |
| `BackupRoundTrip.PrefixesAreClosed` | src/services/backup-shared.ts:78-112 | at every point of the load the rows already in satisfy the foreign keys |
| `BackupExport.TextReadsBack` | src/services/backup-restore.ts:263-272 | a dump's text, cut anywhere, is read back as its lines |
| `BackupExport.ExportSplit` | src/services/backup-export.ts:233-252 | a file for each table of the scope, holding that table's part of the dump, and no other |
| `BackupExport.RestoreFromDir` | src/services/backup-restore.ts:397-418 | restores the manifest followed by the listed files' lines |
| `BackupExport.SplitReplaysTheDump` | src/services/backup-restore.ts:405-417 | the sorted listing of a split dump, replayed after a manifest, is a single-file dump |
| `BackupExport.SplitRoundTripIff` | src/services/backup-restore.ts:392-418 | a full split dump rebuilds exactly the database without sessions, a config-only one without executions too, under the condition of the single file |
| `BackupExport.SplitFilesReplayInOrder` | src/services/backup-export.ts:242-246 | a sorted listing of a split dump's files is the table order, whichever tables have files |
| `Heartbeat.HeartbeatRepo.RecordPing` | src/db/repositories/heartbeat.repo.ts:93-116 | exactly the enabled row of the token becomes UP as of now, unless pinged less than 1000 ms ago; reports a recovery exactly when an OVERDUE row was revived |
| `Heartbeat.HeartbeatRepo.FindOverdue` | src/db/repositories/heartbeat.repo.ts:134-146 | exactly the rows that are enabled and UP and whose last ping is more than period plus grace seconds ago |
| `Heartbeat.HeartbeatRepo.MarkOverdue` | src/db/repositories/heartbeat.repo.ts:151-158 | turns an UP row OVERDUE and says whether it did |
| `Heartbeat.HeartbeatRepo.TickHeartbeats` | src/scheduler.ts:806-831 | an uninterrupted sweep turns exactly the enabled UP rows whose last ping is more than period plus grace seconds ago, reports each once, and leaves none |
| `Heartbeat.SweepTurnsTheSilent` | src/scheduler.ts:806-831 | in the interleaved system an uninterrupted sweep turns each monitor of its list that is silent past period and grace OVERDUE, with one outage, and leaves every other alone |
| `Heartbeat.FoundAndMarked` | src/db/repositories/heartbeat.repo.ts:134-158 | found and marked with nothing in between, a monitor turns OVERDUE with an outage exactly if it is silent |
| `Heartbeat.PingCounts` | src/db/repositories/heartbeat.repo.ts:93-116 | a ping makes an enabled monitor UP as of now, with a recovery if it was OVERDUE, unless the last one is less than a second old; otherwise nothing changes |
| `Heartbeat.AlwaysTold` | src/db/repositories/heartbeat.repo.ts:93-158 | in every interleaving of pings, edits and sweeps, outages and recoveries alternate, an outage first, open exactly while OVERDUE |
| `Heartbeat.OutagesMinusRecoveries` | src/scheduler.ts:806-831 | outages minus recoveries is 1 exactly when OVERDUE |
| `Heartbeat.UninterruptedSweepsSwallowNothing` | src/db/repositories/heartbeat.repo.ts:103-106 | with uninterrupted sweeps and deadlines of a second or more, the debounce never swallows a recovering ping |
| `Heartbeat.MarkSwallowsIff` | src/db/repositories/heartbeat.repo.ts:151-158 | a mark makes the next ping a swallowed one exactly when it runs less than a second after the last ping |
| `Heartbeat.AlwaysClearIff` | src/db/repositories/heartbeat.repo.ts:93-158 | in every interleaving with deadlines of a second or more, all through the run no OVERDUE monitor is within the debounce of its last ping, exactly if no mark takes effect within the debounce of one |
| `Heartbeat.ClearIffNothingSwallowed` | src/db/repositories/heartbeat.repo.ts:103-106 | that is exactly when no ping, of a monitor that is enabled, would be lost |
| `Heartbeat.StaleMarkSwallowsAPing` | src/scheduler.ts:806-831 | for every period, a run where a sweep marks a monitor pinged in between, and a retry is lost |
| `KeyCache.Middleware.EvictFromKeyCache` | src/middleware/auth.ts:67-74 | stopping at the first match leaves no entry of the key, because no key has two |
| `KeyCache.Middleware.ValidateKey` | src/middleware/auth.ts:89-117 | a live entry answers alone, otherwise the looked-up row must be the secret's own; the exact new cache in each case |
| `KeyCache.AcceptedWasActive` | src/middleware/auth.ts:89-117 | in every run of any number of processes, a key accepted at t was revoked no earlier than t less 30 s and one lookup; caches hold at most 1024 entries and one per key |
| `KeyCache.AcceptedAgainIff` | src/middleware/auth.ts:89-117 | a revoked key can be accepted again by a process exactly if a live entry or an unfinished validation is left there |
| `KeyCache.RevocationIsInstantIff` | src/routes/api-keys.ts:44-50 | after revoke and evict the serving process never accepts the key exactly if no validation was under way; another process exactly if it also had no live entry |
| `KeyCache.ActiveKeyIsAccepted` | src/middleware/auth.ts:89-117 | in every run an active key that shows its own secret, and that the prefix query returns, is accepted: by a live entry at once, or when its lookup is done, and then remembered |
| `KeyCache.FreshIsAccepted` | src/middleware/auth.ts:93-100 | a remembered key is accepted without a lookup for 30 s less a millisecond, and then no more |
| `KeyCache.OthersAreKept` | src/middleware/auth.ts:108-116 | a new entry costs no other its place, unless the cache holds 1024: then the oldest goes |
| `KeyCache.MisshapenIsRefused` | src/middleware/auth.ts:89-92 | a text under 12 characters or without `oo_` is turned away and changes nothing |
| `EventBus.Process.InitEventBus` | src/services/exec-events.ts:113-130 | wires once, whatever the number of calls |
| `EventBus.Process.Emit` | src/services/exec-events.ts:147-156 | local listeners hear it at once; published exactly when wired and no listener throws |
| `EventBus.Process.OnMessage` | src/services/exec-events.ts:120-128 | a message is heard unless the process sent it |
| `EventBus.AlwaysConserved` | src/services/exec-events.ts:113-156 | heard plus still to be heard equals what is due, for every process, event and interleaving |
| `EventBus.NeverTwice` | src/services/exec-events.ts:113-156 | no process hears an event twice |
| `EventBus.DrainedExactlyOnceIff` | src/services/exec-events.ts:113-156 | once drained, a process has heard an event once exactly if it emitted it or was subscribed when it was published, which may be after the emission or never |
| `EventBus.AudienceWasSubscribed` | src/services/exec-events.ts:113-156 | in every run the audience of a published event is whoever was subscribed at its publication, whatever happens later |
| `EventBus.UnpublishedStaysLocal` | src/services/exec-events.ts:147-156 | an emission by an unwired process, or one whose listener throws, is never heard by another process |
| `EventBus.LateSubscriberHears` | src/services/exec-events.ts:150-153 | a process that subscribes between the emission and the publication is in the audience |
| `EventBus.OwnCopyComesBack` | src/services/exec-events.ts:120-125 | the emitter's own copy does return, so the origin check is needed |
| `RateLimit.Limiter.RateAllow` | src/routes/auth.ts:45-59 | the answer and the exact new map |
| `RateLimit.AlwaysBoundedIff` | src/routes/auth.ts:48-53 | all through a run the map stays within 2048 keys exactly if no new key is opened in a full map whose oldest key is empty |
| `RateLimit.BoundedForKeysIff` | src/routes/auth.ts:48-53 | whatever attempts a set of keys makes, the map stays within 2048 exactly if the empty key is not among them or they are no more than that |
| `RateLimit.EmptyKeyKeepsAll` | src/routes/auth.ts:50-51 | with the empty key first, every later key stays: one entry for each |
| `RateLimit.EmptyKeyIsRemembered` | src/routes/auth.ts:50-51 | no run ever drops the empty key's window |
| `RateLimit.TwentyAMinute` | src/routes/auth.ts:45-59 | while no open window of the key is dropped: a window begins with an accepted attempt, lasts a minute and the next begins after it; at most 10 accepted a window, at most 20 in any minute |
| `RateLimit.DroppedIff` | src/routes/auth.ts:48-53 | an attempt drops a key's open window exactly if it needs a new bucket in a full map where this key's is the oldest and the key is not empty |
| `RateLimit.AfterFlood` | src/routes/auth.ts:45-59 | new keys push out the oldest buckets, one for each key over the bound, as far as the empty key |
| `RateLimit.FloodReopensTheWindow` | src/routes/auth.ts:45-59 | for every key but the empty one, a run with 2048 others in which it has eleven accepted attempts in one window, so the bound needs its condition |
| `RateLimit.RefusedIffFull` | src/routes/auth.ts:56-58 | an attempt is refused exactly when ten were accepted in the latest window and that window is not over |
| `RateLimit.FewKeysAreRemembered` | src/routes/auth.ts:49-52 | with fewer than 2048 keys no window is ever dropped |
| `Redact.RedactQuerySecretsInText` | src/utils/fetch-errors.ts:93-116 | the scan equals the pieces of the text with sensitive values masked; what that means for a pair is said by the next three |
| `Redact.PairIsRecognised` | src/utils/fetch-errors.ts:93-113 | for any text around it: a pair after `&`, or after `?` where none is open, has its value replaced by REDACTED if its name is secret and copied if not, and the texts before and after are redacted as on their own |
| `Redact.HiddenIff` | src/utils/fetch-errors.ts:93-113 | for every text before it: the value of a sensitive name after `?` is hidden exactly if no pair is left open there, or the first one left open has its equals sign and a sensitive name |
| `Redact.ListedIsSensitive` | src/utils/fetch-errors.ts:16-52 | every listed name is sensitive and can be the name of a pair |
| `Redact.Cut` | src/utils/fetch-errors.ts:93-116 | text is redacted part by part wherever no pair runs across the cut |
| `Redact.PiecesSpellTheText` | src/utils/fetch-errors.ts:93-116 | the pieces spell the text, so everything but masked values is copied unchanged |
| `Redact.OutputIsMasked` | src/utils/fetch-errors.ts:93-116 | scanning the output finds the same pieces, every secret one masked |
| `Redact.Idempotent` | src/utils/fetch-errors.ts:93-116 | redacting twice is redacting once |
| `Redact.SpellingsAgree` | src/utils/fetch-errors.ts:50-52 | upper or lower case, hyphens and underscores never decide whether a name is sensitive; lower case as far as it can yield a listed name |
| `Import.Importer.Insert` | src/services/import.ts:164-168 | a row and its children are all in, or every table is as it was and at most a sequence value is spent |
| `Import.Importer.One` | src/services/import.ts:170-213 | one row of a list, with its id mapping, its pending bindings and its counter; which row a mapping names says `ImportNames.ImportTells` |
| `Import.Importer.ResolveRefs` | src/services/import.ts:468-481 | the distinct channels the references resolve to and a note for each other, or a throw exactly if one cannot be printed |
| `Import.Importer.Wire` | src/services/import.ts:482-502 | binds the distinct resolved channels of one monitor, or aborts the import |
| `Import.Importer.ResolveStatusPageMonitors` | src/services/import.ts:511-530 | the references that resolve and a note for each other, or a throw exactly on a null or a dangling reference that cannot be printed |
| `Import.Importer.DedupeStatusPageMonitors` | src/services/import.ts:532-542 | distinct rows, exactly those of the resolved references, or a throw exactly on a type that cannot be printed |
| `Import.Importer.InsertPage` | src/services/import.ts:561-581 | the page and its rows are in, or every table is as it was |
| `Import.Importer.OnePage` | src/services/import.ts:544-591 | one status page, kept with its rows, or skipped, or both |
| `Import.RunImport` | src/services/import.ts:83-140 | the whole import, or, for another version or an escaping exception, every table as it was |
| `ImportProofs.FailedRowChangesNothing` | src/services/import.ts:156-168 | a failed row leaves tables, mappings, bindings and counters alone |
| `ImportProofs.WireAbortsIff` | src/services/import.ts:462-509 | wiring aborts the import exactly on a monitor with a reference that cannot be printed or more channels than one statement binds; duplicate references never violate the primary key |
| `ImportProofs.PageKeysAreFree` | src/services/import.ts:570-579 | nor that of the page rows |
| `ImportProofs.ImportIsSound` | src/services/import.ts:105-123 | for every bundle: surviving bindings and page rows point at rows this import created, counters are exact, existing rows stay, and every input row is counted or skipped, both only for a kept page with an unprintable slug and a dangling reference |
| `ImportNames.ImportTells` | src/services/import.ts:105-123 | told from the bundle alone: each kept entry is the row under the id its place in the list gives, as it is in the bundle and with exactly its children; a monitor is bound to exactly the channels its own references name, and a page lists exactly the monitors its references name, each reference naming the last kept entry with that bundle id |
| `ImportNames.MonitorsTold` | src/services/import.ts:170-213 | after the lists each mapping sends a bundle id to the id that very entry was given, and knows no other |
| `ImportNames.KeptPageIff` | src/services/import.ts:544-591 | which pages draw an id and which are kept, told from the bundle alone |
| `ImportNames.DistinctAreNamed` | src/services/import.ts:449-451 | with distinct bundle ids a reference names the one kept entry that has it |
| `ImportProofs.RecordedOnceIff` | src/services/import.ts:580-588 | every input row is counted or skipped once, exactly if there is no such page |
| `ImportProofs.UnprintableSlugIsRecordedTwice` | src/services/import.ts:580-588 | for any mapping, such a page |
| `ImportProofs.CommitsIff` | src/services/import.ts:105-123 | an import commits exactly if no list but the channels holds a null and no kept URL monitor or API check lists a channel reference that cannot be printed or names more kept channels than one statement binds |
| `ImportProofs.ChannelMap` | src/services/import.ts:449-451 | the channel map is of exactly the kept channels' ids, and one to one |
| `ImportProofs.UnprintableRefRollsBack` | src/services/import.ts:468-481 | one kept monitor with one such reference rolls everything back |
| `ImportProofs.PageRowsKeepTheirTypeIff` | src/services/import.ts:511-530 | a page's rows name monitors of their stated type exactly if no resolved reference has another type than url or api |

## Left out

- Probes, Playwright, fetch, mail, object storage and the tar and gzip framing: their results are inputs.
- The dashboard, route validation, the CLI, logging and the SSE transport.
- Hashing: a secret stands for its hash, and a verification succeeds for that secret only.
- QaStore.Store.WriteQaAgentResult: a status is text; upper-casing is modelled for a to z, and what the driver makes of a status that is no string is left out.
- Deleting regions, projects, tests or monitors while runs are under way.
- QaAlerts.AlertsAreTheEdges: orders alerts by the runs they are of, not by the moment each was dispatched.
- Alerting for URL, API and port monitors: its previous status crosses regions, so alternation is not claimed.
- Cadence.Scheduler.FindDue: QA projects take their age from `lastRunAt` instead; only the slot bound in `Slots` is proved for them.
- Cadence.DispatchCadence: no two ticks fall in the same millisecond, and a failed enqueue's own row update does not fail (its status never decides a dispatch); each tick is one step; ticks of several schedulers interleave only between ticks, except in `Slots`, where single claims do.
- A claim whose process dies before the execution row is written: the slot stays taken until its TTL.
- Heartbeat.AlwaysTold: counts transitions as they are reported; a process that dies between the update and the dispatch loses that alert. Monitors that a restore brings in with a status of their own start outside the history.
- OVERDUE does not imply that the deadline has passed, because the mark rechecks only the status (`StaleMarkSwallowsAPing`).
- BackupRestore.Instance.RestoreLines: not-null, width and the non-primary unique constraints are not modelled, and a row line without an id fails here instead of drawing one from the sequence; a second manifest after a truncation, which waits for ever on the transaction's own lock, counts as a failed load.
- BackupRoundTrip.RoundTripIff: dates keep milliseconds; Postgres microseconds are lost in the dump. Sessions are never dumped.
- BackupExport.Ndjson: the database does not change during the export, which the code does not enforce with a snapshot.
- Chunks are decoded text: a character cut between two chunks of bytes is damaged by the code and not modelled.
- BackupExport.SplitFilesReplayInOrder: names compare by character; only their two leading digits differ, which every locale orders alike.
- Lines.ReadBack: holds for lines without newlines; that JSON text has none is not proved here.
- KeyCache.RevocationIsInstantIff: regions that revoke their key directly (src/services/region-admin.ts:89) do not evict at all; the case of another process covers them.
- RateLimit.TwentyAMinute: a window dropped from the full map starts again (`FloodReopensTheWindow`), so the bound needs its condition.
- Redact.RedactQuerySecretsInText: URLs that parse take another path, which is not modelled.
- ImportProofs.CommitsIff: how many bindings one statement carries is a number the driver sets, and stays a parameter.
- ImportProofs.ImportIsSound: which rows the schema rejects is an input; types and slugs are texts or values that cannot be printed; validation messages and the routing warning are left out.
- The storage backfill loops: their termination is not claimed.
