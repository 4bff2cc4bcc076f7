# Verified model of the usage daemon

This project models the stateful cores of the daemon, and the algorithms around them, in Dafny, and
proves what they promise over every input, every run or every interleaving. To verify it:

    dafny verify dfyconfig.toml

## What is modelled

Each part is a pair: the code's own form (a class whose methods change their fields, or a loop) proved
equal to a function of the old state, and theorems about runs of that function.

- `KeychainBroker`, `KeychainTheorems`, `KeychainAnswers`: the broker thread that serves Keychain requests from a read
  cache. The helper, the clock and the callers are adversaries; a mutation that fails may or may not
  have been applied.
- `RefreshRegistry`, `RefreshProtocol`, `RefreshTheorems`, `RefreshOrigins`, `RefreshProgress`: refresh jobs with shared
  scopes, one flight per provider, and the handshake that hands discovered accounts to jobs. Every
  region that runs under a lock is one atomic action; a run is any list of actions.
- `Wakeup`: how waiters of a job or a flight learn of its result.
- `ConfigTransaction`: the single write path for configuration, with failures at every step.
- `Alerts`, `AlertTheorems`, `AlertEvaluations`: the alert bitmask, with hysteresis, cooldown, reset detection and the
  predictive bit.
- `EditDistance`: the rolling-row distance behind "did you mean".
- `ForecastSamples`, `TheilSen`, `ForecastWindow`: the samples of the current cycle, the median-slope
  estimator, and the projection, exhaustion time and status built on it.
- `SnapshotDetails`, `DatasetMerge`: first-writer-wins merging with attribution.
- `Dashboard`: the totals rebuilt from account summaries, in saturating arithmetic.
- `Framing`: newline framing between client and daemon, in both directions.
- `Debounce`: the bounded trailing debounce of local log changes.
- `LogRotation`: the rotating log, with every file operation free to fail.
- `AnsiText`, `TableLayout`: visible width, column shrinking and aligned rows.
- `Wrappers`, `Sequences`, `Numbers`: the small definitions they share.

Times are integers and percentages are reals. Randomness, clocks, storage, the network and calls into
other processes are parameters, chosen by an adversary.

## What does not hold

Some promises fail on the code as it stands. Each line names the lemma that shows it and, where one
decides, the condition under which the promise does hold.

- The drain of the broker's queue may coalesce a read although older requests wait
  (crates/usage-daemon/src/keychain.rs:380), against the comment at lines 391 to 393:
  `ReadOvertakesWrite` is such a run, and `InOrderExactlyWhenNoReadJumps` says that arrival order is
  kept in exactly the runs without such a drain.
- A flight that panics between noting an account (crates/usage-daemon/src/polling.rs:941-946) and
  telling the jobs loses the account for a job that returns its results: `PanicLosesADiscovery`.
  `MissingExactlyWhenCut` says exactly when a completed job misses an account of its flight.
- Writing the configuration can report a failure after the new file is in place, when syncing the
  directory fails (crates/usage-daemon/src/config.rs:460-462). File and memory then differ. A failed
  notification update whose rollback cannot write the file leaves the notification manager on another
  configuration than the rest. `RefusedChangeCanReachTheFile` is a run of the first kind;
  `CoherenceExactly` states both conditions as equivalences.
- A change that is reported as rolled back can stay in force, in memory and in the file, when the
  rollback cannot write the file: `RolledBackChangeCanStay`. `ChangeIsAllOrNothing` says exactly when a
  failed change leaves the previous configuration in memory, in the file, and everywhere.
- With a cooldown of 0 one evaluation can queue three alerts: `NoCooldownNoSpacing`. `AlertsAreSpaced`
  holds for every other cooldown.
- A name of a typed field inside `extra` is reported as contributed although nothing is filled under
  it: `PhantomIsContributed`. `ContributedIsNew` says that this is the only exception. Deserialising never
  produces such an `extra`, because typed names go to their fields; it takes a detail built directly.
- A change of a provider that was never refreshed has no bound on its latency when timers are served
  late, because each change moves the deadline to the present
  (crates/usage-daemon/src/local_logs.rs:261-264): `FirstRefreshCanBePutOff`, for every target and however
  little the timers are late. `ChangeIsServedInTime` gives the bound in every other case.
- While the log cannot be reopened, every attempted write rotates again and drops an archive, although
  nothing is written: `FailedReopensEmptyTheLog`. `FailedWriteLosesExactly` says exactly when an attempt
  that writes nothing loses nothing, and `AcceptedWriteIsRetainedExactly` when an accepted one is kept.
- Painting text that ends inside an escape sequence shows two characters of the closing code:
  `PaintWidth` gives the width in every case.
- The last sample of a cycle is not the current reading when a stored observation carries the same
  instant; the stored one wins: `CycleEndsNow`.

## Model

| member | source | states |
|---|---|---|
| `KeychainBroker.Broker.RunOnce` | crates/usage-daemon/src/keychain.rs:312-398 | one pass of the broker loop leaves exactly the state and messages of the step function, on every path: expired, abandoned, cached, executed, denied |
| `KeychainBroker.Broker.DrainQueue` | crates/usage-daemon/src/keychain.rs:380-397 | the drain answers adjacent equal reads until something intervenes and postpones the rest |
| `KeychainBroker.Broker.UpdateReadCache` | crates/usage-daemon/src/keychain.rs:401-449 | which replies are cached, which evict, and which leave the cache alone |
| `KeychainBroker.Broker.RunAll` | crates/usage-daemon/src/keychain.rs:309-399 | the thread's loop is a run of the step function |
| `KeychainTheorems.PerformIsTruthful` | crates/usage-daemon/src/keychain.rs:552-614 | the helper's answers are true of the Keychain it leaves, reads change nothing, and other items stay as they are, whether or not a failed mutation was applied |
| `KeychainTheorems.ServeIsTruthful` | crates/usage-daemon/src/keychain.rs:328-378 | serving one request keeps the cache equal to the Keychain and sends a true reply, also from the cache or after a denial |
| `KeychainTheorems.CachedAnswerIsTheHelpersAnswer` | crates/usage-daemon/src/keychain.rs:329-350 | a cached value, or a skipped write, gives the reply and the Keychain that asking a working helper would give |
| `KeychainTheorems.BrokerCoherence` | crates/usage-daemon/src/keychain.rs:309-449 | in every run the cached values are those of the Keychain, and every value, absence, conflict or success was true when it was sent |
| `KeychainTheorems.EveryRequestIsAnsweredOnce` | crates/usage-daemon/src/keychain.rs:318-397 | a request gets at most two messages, so the reply channel of two slots never blocks; one that no longer waits has exactly one final answer unless its caller had gone |
| `KeychainTheorems.StepKeepsOrder` | crates/usage-daemon/src/keychain.rs:380-397 | a pass that does not coalesce while older requests wait keeps arrival order |
| `KeychainTheorems.JumpBreaksOrder` | crates/usage-daemon/src/keychain.rs:380-397 | a pass that does coalesce then breaks the order for good |
| `KeychainTheorems.InOrderExactlyWhenNoReadJumps` | crates/usage-daemon/src/keychain.rs:380-397 | requests are settled in arrival order exactly in the runs without such a pass |
| `KeychainTheorems.ReadOvertakesWrite` | crates/usage-daemon/src/keychain.rs:380-393 | a run in which a read queued behind a write is answered with the value from before the write |
| `KeychainAnswers.WorkingHelper` | crates/usage-daemon/src/keychain.rs:566-614 | with a working helper the answer and the item decide each other: a write succeeds exactly when its condition held, and then the item has the new password |
| `KeychainAnswers.FailingHelper` | crates/usage-daemon/src/keychain.rs:552-614 | a refusal or a broken helper is reported as such, and the Keychain is as it was or as success would have left it |
| `KeychainAnswers.GetIsServed` | crates/usage-daemon/src/keychain.rs:303-363 | a silent read gets the cached answer exactly while that is younger than the interval; otherwise the helper decides, except that a value accepted earlier stands in for a denial |
| `KeychainAnswers.OtherReadsAskTheHelper` | crates/usage-daemon/src/keychain.rs:328-378 | a revalidation or an authorisation always asks the helper |
| `KeychainAnswers.MutationIsServed` | crates/usage-daemon/src/keychain.rs:333-449 | a write is skipped exactly when it would store the accepted value again; otherwise its success is what the cache holds, and anything else makes the cache forget the item |
| `KeychainAnswers.InvalidationIsServed` | crates/usage-daemon/src/keychain.rs:341-378 | an invalidation forgets the cached item and touches nothing else |
| `KeychainAnswers.DrainTakesTheLongestRun` | crates/usage-daemon/src/keychain.rs:380-397 | the drain answers the longest run of identical reads in time at the front of what has arrived, and postpones everything behind it in order |
| `KeychainAnswers.PassSettles` | crates/usage-daemon/src/keychain.rs:312-379 | a pass takes the oldest request and refuses it exactly at or past its deadline, passes over a caller that has gone, and answers any other |
| `KeychainAnswers.CacheHasOrigins` | crates/usage-daemon/src/keychain.rs:401-449 | in every run what the cache holds was learnt by one of the passes, from the helper's own answer, and its age counts from there |
| `KeychainAnswers.SilentReadsAreRecent` | crates/usage-daemon/src/keychain.rs:303-363 | in every run a silent read is answered by asking the helper or with what a pass less than the interval ago learnt |
| `RefreshRegistry.CoversIsInclusion` | crates/usage-daemon/src/polling.rs:66-82 | one scope covers another exactly when it includes every provider the other includes, also for the request for all of them |
| `RefreshRegistry.RefreshJobs.Claim` | crates/usage-daemon/src/polling.rs:394-432 | a claim returns an active job that covers the request; it registers a new one only when none does |
| `RefreshRegistry.RefreshJobs.Retain` | crates/usage-daemon/src/polling.rs:505-525 | a finished job leaves the active map only if it is the one there, and the oldest finished jobs are forgotten |
| `RefreshRegistry.RegisterKeepsValid` | crates/usage-daemon/src/polling.rs:394-432 | registering a scope that no active job covers overwrites nothing and keeps ids disjoint |
| `RefreshRegistry.RetainKeepsValid` | crates/usage-daemon/src/polling.rs:505-525 | retiring a job keeps the newest 64 finished jobs, and the lookup table exactly the active and finished ids |
| `RefreshRegistry.RetainFreesItsOwnScope` | crates/usage-daemon/src/polling.rs:505-525 | a retiring job frees its scope only from itself |
| `RefreshTheorems.StepKeepsInv` | crates/usage-daemon/src/polling.rs:394-668 | every atomic region keeps the protocol invariant |
| `RefreshTheorems.RunKeepsInv` | crates/usage-daemon/src/polling.rs:394-668 | so does every interleaving |
| `RefreshTheorems.DiscoveryHandshake` | crates/usage-daemon/src/polling.rs:434-452 | a completed job holds, without duplicates, every account of its flights whose recording no panic cut, and nothing that no flight recorded |
| `RefreshTheorems.ScanKeepsInv` | crates/usage-daemon/src/polling.rs:948-956 | scanning the active jobs after noting an account finds every job that could still miss it |
| `RefreshTheorems.SeedKeepsInv` | crates/usage-daemon/src/polling.rs:434-452 | seeding from a flight read after registration closes the other half of the handshake |
| `RefreshTheorems.PanicLosesADiscovery` | crates/usage-daemon/src/polling.rs:941-961 | the interleaving in which a panicking flight's account never reaches the job |
| `RefreshOrigins.DiscoveriesHaveOrigins` | crates/usage-daemon/src/polling.rs:434-452 | in every interleaving a job holds exactly the accounts its seeding read from flights and those a recording call told it |
| `RefreshOrigins.StepKeepsOrigins` | crates/usage-daemon/src/polling.rs:394-668 | every atomic region keeps that equivalence |
| `RefreshOrigins.MissingExactlyWhenCut` | crates/usage-daemon/src/polling.rs:940-961 | a completed job misses an account of a flight it joined exactly when a panic cut every call of that flight about it, no call had told the job, and the seeding had not read it |
| `RefreshTheorems.SingleFlight` | crates/usage-daemon/src/polling.rs:609-668 | no two unfinished flights of one provider exist, and a flight leaves the map only after its result was written and only in its own name |
| `RefreshTheorems.RegistryInvariant` | crates/usage-daemon/src/polling.rs:394-525 | in every reachable state ids are the disjoint union of active and at most 64 finished ones, and every unfinished job is active under its scope |
| `RefreshTheorems.ClaimCovers` | crates/usage-daemon/src/polling.rs:394-432 | after a claim an active job covers the request, and no active job lost its key |
| `RefreshTheorems.TerminalIsFinal` | crates/usage-daemon/src/polling.rs:468-503 | a terminal job keeps its status whatever happens next |
| `RefreshProgress.EverythingCanFinish` | crates/usage-daemon/src/polling.rs:394-668 | no interleaving gets stuck: from every reachable state the work under way can be carried to its end, without a failure: every call told through, every flight removed, every job that had not failed completed and retired |
| `RefreshProgress.NextJoinStartsAfresh` | crates/usage-daemon/src/polling.rs:609-668 | a finished flight that was removed serves nobody again: the next job starts a new and empty one |
| `RefreshProgress.JoinSharesTheFlight` | crates/usage-daemon/src/polling.rs:609-631 | while a flight is live every job that needs its provider joins it |
| `RefreshProgress.FailureEndsTheJob` | crates/usage-daemon/src/polling.rs:468-503 | a job can fail exactly while it is claimed or at work, and is over then |
| `Wakeup.NoLostWakeUp` | crates/usage-daemon/src/polling.rs:1508-1529 | once a result is stored, every sleeping waiter can move or its notification is still to come |
| `Wakeup.QuietMeansDelivered` | crates/usage-daemon/src/polling.rs:1508-1529 | when nothing can move any more every waiter has the result |
| `Wakeup.WaitersMakeProgress` | crates/usage-daemon/src/polling.rs:1508-1529 | after the notification every move of a waiter brings it nearer to the result, and nothing takes that back |
| `Wakeup.EverybodyCanBeServed` | crates/usage-daemon/src/polling.rs:1508-1529 | whatever has happened, every waiter and one more that arrives can still get the stored result, or the one stored next |
| `Wakeup.NobodyWakesEarly` | crates/usage-daemon/src/polling.rs:1508-1529 | before the notification a sleeper stays asleep |
| `ConfigTransaction.FromDescriptors` | crates/usage-daemon/src/daemon.rs:68-91 | the schedule's loop groups the enabled providers by effective interval, in registry order |
| `ConfigTransaction.PolledExactlyWhenEnabled` | crates/usage-daemon/src/daemon.rs:68-91 | a provider is polled at an interval exactly when it is known, enabled, and the interval is the larger of the two |
| `ConfigTransaction.GroupExactly` | crates/usage-daemon/src/daemon.rs:68-91 | a poll group holds exactly the enabled providers of its interval, in registry order |
| `ConfigTransaction.ConsumersExactly` | crates/usage-daemon/src/daemon.rs:386-398 | collectors exist for exactly the known providers and watches for exactly the enabled ones, each with its own settings |
| `ConfigTransaction.DaemonRuntime.InstallConfig` | crates/usage-daemon/src/daemon.rs:388-411 | which consumers are republished, and when the schedule is signalled |
| `ConfigTransaction.DaemonRuntime.ApplyNotificationEffects` | crates/usage-daemon/src/daemon.rs:417-435 | which stored alert state a change clears, and that a failure leaves the manager as it was |
| `ConfigTransaction.DaemonRuntime.RollbackConfigChange` | crates/usage-daemon/src/daemon.rs:361-383 | a rollback restores file, memory and consumers, or nothing when the file cannot be written |
| `ConfigTransaction.DaemonRuntime.CommitConfigChange` | crates/usage-daemon/src/daemon.rs:290-359 | the whole transaction, for every combination of failures |
| `ConfigTransaction.DerivedAgree` | crates/usage-daemon/src/daemon.rs:101-114 | what a change set does not name is the same under both configurations |
| `ConfigTransaction.SelectivePublishIsFullPublish` | crates/usage-daemon/src/daemon.rs:388-411 | publishing only what changed equals republishing everything, and the schedule is signalled exactly when it differs |
| `ConfigTransaction.ChangeIsAllOrNothing` | crates/usage-daemon/src/daemon.rs:290-383 | a committed change is in force everywhere; after any other outcome the previous configuration is in force in memory, in the file, and everywhere, each exactly under a named condition on the failures |
| `ConfigTransaction.OutcomeExactly` | crates/usage-daemon/src/daemon.rs:296-363 | the outcome of every change from what it changes and what fails; the marks of alerted thresholds are forgotten exactly when alerts were switched on again or thresholds changed, and undelivered alerts dropped exactly when alerts were switched off |
| `ConfigTransaction.ThresholdRulesExactly` | crates/usage-daemon/src/daemon.rs:844-857 | the rules that count are exactly those that set thresholds, in order |
| `ConfigTransaction.CoherenceExactly` | crates/usage-daemon/src/daemon.rs:290-435 | memory and consumers agree after a change, and so does the file, each exactly under a named condition on the failures |
| `ConfigTransaction.RefusedChangeCanReachTheFile` | crates/usage-daemon/src/config.rs:457-465 | a change that is refused because its write failed late is in the file all the same |
| `ConfigTransaction.RolledBackChangeCanStay` | crates/usage-daemon/src/daemon.rs:361-383 | a change that is reported as rolled back is in force in memory and in the file when the rollback cannot write |
| `ConfigTransaction.RunIsCoherent` | crates/usage-daemon/src/daemon.rs:290-435 | any run of changes without those failures ends with everything on one configuration |
| `Alerts.AlertWindow.ProcessWindow` | crates/usage-daemon/src/notifications.rs:97-229 | one evaluation queues and stores exactly what the stage functions say, also when storage fails in between |
| `Alerts.AlertWindow.QueueLevel` | crates/usage-daemon/src/notifications.rs:167-194 | the re-arming loop and the crossing alert |
| `Alerts.LevelsShape` | crates/usage-daemon/src/notifications.rs:329-337 | the levels are the thresholds in decreasing order |
| `AlertTheorems.MaskRefinesCounter` | crates/usage-daemon/src/notifications.rs:167-194 | the bit operations move a counter of marked levels: down to the re-armed level, up to the crossed one |
| `AlertTheorems.BitmaskIsACounter` | crates/usage-daemon/src/notifications.rs:167-194 | under one threshold list the threshold bits are always a prefix 2^j - 1, for every observation sequence |
| `AlertTheorems.AlertNamesTheTightestThreshold` | crates/usage-daemon/src/notifications.rs:339-352 | a threshold alert names the smallest threshold at or above the percentage |
| `AlertTheorems.CrossedLevelsAreMarked` | crates/usage-daemon/src/notifications.rs:167-194 | an evaluation outside the cooldown leaves every crossed level marked |
| `AlertTheorems.NoRepeatedAlert` | crates/usage-daemon/src/notifications.rs:167-194 | no level alerts twice without an evaluated observation more than one point above it in between |
| `AlertTheorems.AtMostOneAlert` | crates/usage-daemon/src/notifications.rs:126-228 | under a cooldown one evaluation queues at most one alert, and only once the cooldown has passed |
| `AlertTheorems.AlertsAreSpaced` | crates/usage-daemon/src/notifications.rs:126-228 | two alerts for one window are at least the cooldown apart, even if the clock runs backwards |
| `AlertTheorems.NoCooldownNoSpacing` | crates/usage-daemon/src/notifications.rs:126-228 | without a cooldown one evaluation can queue three alerts |
| `AlertTheorems.PredictiveBit` | crates/usage-daemon/src/notifications.rs:126-228 | the predictive bit is set by a predictive alert only and cleared by a completed reset only |
| `AlertTheorems.PredictiveAlertNeedsAReset` | crates/usage-daemon/src/notifications.rs:196-228 | a predictive alert repeats only after a completed reset |
| `AlertEvaluations.EvaluationExactly` | crates/usage-daemon/src/notifications.rs:96-244 | with working storage, exactly which alerts an evaluation queues, in which order and for which level, and every bit and time it stores, from the numbers alone |
| `AlertEvaluations.NoEvaluation` | crates/usage-daemon/src/notifications.rs:106-129 | a disabled, suppressed or non-authoritative window, or one without a percentage, queues and changes nothing |
| `AlertEvaluations.FaultsOnlyCutShort` | crates/usage-daemon/src/notifications.rs:130-244 | a failing storage call only cuts the alerts off where it fails, and the stored state is all or nothing |
| `AlertEvaluations.LastAttemptIsAnAlert` | crates/usage-daemon/src/notifications.rs:150-244 | in every run the attempt the cooldown counts from was an alert |
| `AlertEvaluations.OverdueIsAlerted` | crates/usage-daemon/src/notifications.rs:150-244 | in every run, once all earlier alerts lie a cooldown back, an evaluation alerts what is due: a reset, else the lowest level that is crossed and not marked, else a prediction |
| `AlertEvaluations.CrossedLevelIsAlerted` | crates/usage-daemon/src/notifications.rs:186-215 | a level that stays crossed and unmarked is alerted by the first evaluation a cooldown past every earlier alert, unless that announces a reset |
| `EditDistance.Distance` | crates/usage-cli/src/selection.rs:364-378 | the two-row loop computes the recursive distance |
| `EditDistance.DistanceIsLeast` | crates/usage-cli/src/selection.rs:364-378 | the distance is the least number of insertions, deletions and substitutions: some script has that length and none is shorter |
| `EditDistance.ZeroExactlyWhenEqual` | crates/usage-cli/src/selection.rs:364-378 | it is zero exactly on equal strings |
| `EditDistance.Symmetric` | crates/usage-cli/src/selection.rs:364-378 | it is symmetric |
| `EditDistance.TriangleInequality` | crates/usage-cli/src/selection.rs:364-378 | it satisfies the triangle inequality |
| `EditDistance.SuggestionIsFirstBest` | crates/usage-cli/src/selection.rs:147-165 | the suggestion is the first of the best plausible candidates by distance and then length, and exists exactly when one is plausible |
| `EditDistance.TyposAreCaught` | crates/usage-cli/src/selection.rs:147-165 | a token at most two edits from a candidate always gets an answer, no further away |
| `EditDistance.SuggestionsAreNear` | crates/usage-cli/src/selection.rs:147-165 | a suggestion is a candidate within two edits of the lower-case token, or with its first three characters when the token has four bytes; and there is one whenever such a candidate exists |
| `EditDistance.SuggestionIsLeast` | crates/usage-cli/src/selection.rs:157-165 | the suggestion is the nearest such candidate, of equally near ones the shortest in bytes, and of these the first |
| `EditDistance.LowerCaseIs` | crates/usage-cli/src/selection.rs:148 | exactly the 26 capital letters are lowered, each to its own small letter |
| `EditDistance.ByteLengthIs` | crates/usage-cli/src/selection.rs:161-163 | the length of a text counts the shortest UTF-8 encoding of each character |
| `ForecastSamples.Filter` | crates/usage-daemon/src/forecast.rs:130-145 | the observations that are not from the future and belong to the window's reset |
| `ForecastSamples.DrainToLastDrop` | crates/usage-daemon/src/forecast.rs:153-158 | everything before the last large drop is dropped |
| `ForecastSamples.CurrentCycle` | crates/usage-daemon/src/forecast.rs:125-160 | filter, push, sort, dedup and drain, as one function of the history |
| `ForecastSamples.CycleMeaning` | crates/usage-daemon/src/forecast.rs:150-159 | the samples have strictly increasing times and no adjacent drop of 20 or more, each is the first observation of its instant, and none after the start is missing |
| `ForecastSamples.CycleIsMaximal` | crates/usage-daemon/src/forecast.rs:153-158 | samples are left out only up to a large drop right in front of the cycle |
| `ForecastSamples.CycleEndsNow` | crates/usage-daemon/src/forecast.rs:146-151 | the cycle ends at the current instant, with the current reading exactly when no stored observation carries that instant |
| `ForecastSamples.CompatibleExactly` | crates/usage-daemon/src/forecast.rs:130-145 | the stored observations that are looked at are, in order and each once, exactly those not taken later than now whose reset, where known, is within five minutes of the current one |
| `ForecastSamples.CycleComesFromHere` | crates/usage-daemon/src/forecast.rs:124-160 | every sample of the cycle is the current reading or such an observation, and none of these is missing after the cycle's start |
| `ForecastSamples.SubsamplingSpans` | crates/usage-daemon/src/forecast.rs:216-223 | sub-sampling keeps at most 96 samples in strictly increasing order, the first and the last among them |
| `TheilSen.PairwiseSlopes` | crates/usage-daemon/src/forecast.rs:176-184 | the nested loops collect the slope of every pair |
| `TheilSen.EstimateRate` | crates/usage-daemon/src/forecast.rs:169-214 | the estimate with all its guards and early returns |
| `TheilSen.EstimateExactly` | crates/usage-daemon/src/forecast.rs:169-214 | there is an estimate exactly for at least three samples over at least fifteen minutes with a rate of at least 0.01 and a residual of at most eight |
| `TheilSen.ResidualIsDistance` | crates/usage-daemon/src/forecast.rs:198-204 | a residual is the distance of a sample from the line, on either side |
| `TheilSen.MedianFollowsMajority` | crates/usage-daemon/src/forecast.rs:225-237 | where more than half of the values lie, the median lies |
| `TheilSen.MedianIsSymmetric` | crates/usage-daemon/src/forecast.rs:225-237 | changing all signs changes the median's sign, so that of an even number of values it is midway between the middle two |
| `TheilSen.SlopeCount` | crates/usage-daemon/src/forecast.rs:176-184 | every pair of samples contributes exactly one slope |
| `TheilSen.RateIsAmongTheSlopes` | crates/usage-daemon/src/forecast.rs:176-185 | the rate lies between the least and the greatest pairwise slope |
| `TheilSen.RateFollowsMarkedSamples` | crates/usage-daemon/src/forecast.rs:176-185 | any set of samples that makes up more than half of all pairs confines the rate to the range of its own slopes |
| `TheilSen.LineIsRecovered` | crates/usage-daemon/src/forecast.rs:176-205 | when those samples lie on a line, the fit is that line with residual zero, whatever the outliers are |
| `TheilSen.SteadyUseIsEstimatedExactly` | crates/usage-daemon/src/forecast.rs:169-214 | collinear samples are estimated exactly, after sub-sampling and through the guards, and refused exactly below the least rate |
| `TheilSen.FitIsEquivariant` | crates/usage-daemon/src/forecast.rs:176-205 | adding b per hour and an offset, and rescaling by k, moves rate, intercept and residual exactly so |
| `ForecastWindow.ExhaustionAgreesWithProjection` | crates/usage-daemon/src/forecast.rs:63-86 | the rounded exhaustion time and the projection with its cut-off seconds agree up to the use of half a second, in both directions |
| `ForecastWindow.ExhaustionIsWhereUsageEnds` | crates/usage-daemon/src/forecast.rs:75-86 | a predicted exhaustion lies in the cycle, and usage at the estimated rate reaches 100 percent within half a second of it |
| `ForecastWindow.VerdictFollowsUsageAtReset` | crates/usage-daemon/src/forecast.rs:63-104 | against where usage really stands at the reset: safe and on pace mean that it does not pass the limit, at risk that it reaches it unless only the pace says so, up to the use of a second |
| `ForecastWindow.VerdictExactly` | crates/usage-daemon/src/forecast.rs:69-104 | each verdict exactly, from the two predictions and the distance to the pace, and what remains at the reset |
| `ForecastWindow.UsesTheEstimate` | crates/usage-daemon/src/forecast.rs:55-87 | there are predictions exactly when the reset is to come and the samples give an estimate |
| `ForecastWindow.SteadyUseIsForecast` | crates/usage-daemon/src/forecast.rs:53-67 | steady use is projected onto its own line at the reset |
| `Dashboard.EnteredRepresents` | crates/usage-core/src/model.rs:420-457 | saturating step by step gives the exact sum of a day, clamped once |
| `Dashboard.DaysOf` | crates/usage-core/src/model.rs:414-459 | the loops over accounts and points leave one day per date that occurs, with its exact sums clamped; cost points count tokens only for accounts without activity |
| `Dashboard.TotalOf` | crates/usage-core/src/model.rs:461-466 | saturating over days that are saturated themselves is clamping the exact sum over all of them |
| `Dashboard.Aggregate` | crates/usage-core/src/model.rs:403-466 | no point is lost or counted twice in the totals |
| `Dashboard.OrderDoesNotMatter` | crates/usage-core/src/model.rs:403-466 | every permutation of the accounts gives the same days and totals, in spite of the saturation |
| `Dashboard.DayIsExact` | crates/usage-core/src/model.rs:403-466 | a day exists for exactly the dates an account mentions and holds the sums of the accounts' own points, tokens from the activity or, where there is none, from the costs |
| `SnapshotDetails.SnapshotDetail.CopyKeyFrom` | crates/usage-core/src/detail.rs:266-289 | which field or entry a key copies |
| `SnapshotDetails.SnapshotDetail.Clear` | crates/usage-core/src/detail.rs:291-310 | which field or entry a key clears |
| `SnapshotDetails.PresentKeys` | crates/usage-core/src/detail.rs:210-228 | the listed keys are the fields that hold something and the names in `extra`; only a held field is listed twice |
| `SnapshotDetails.SnapshotDetail.FillMissingFrom` | crates/usage-core/src/detail.rs:233-242 | first writer wins field by field, and each contributed key is returned once |
| `SnapshotDetails.SnapshotDetail.RemoveKeys` | crates/usage-core/src/detail.rs:246-254 | exactly the listed keys are cleared |
| `SnapshotDetails.RemovalUndoesFill` | crates/usage-core/src/detail.rs:230-254 | removing the contributed keys restores the detail as it was |
| `SnapshotDetails.ContributionIsReplaceable` | crates/usage-core/src/detail.rs:205-209 | a later dataset can replace exactly its own contribution, as if the earlier one had never been |
| `SnapshotDetails.FillIsAssociative` | crates/usage-core/src/detail.rs:230-242 | filling is associative |
| `SnapshotDetails.ContributedIsNew` | crates/usage-core/src/detail.rs:230-242 | the contributed keys are the newly present ones exactly when no typed name is listed only because `extra` holds it |
| `SnapshotDetails.PhantomIsContributed` | crates/usage-core/src/detail.rs:226-242 | a typed name in `extra` is reported as contributed although nothing is there under it |
| `DatasetMerge.AddWindows` | crates/usage-daemon/src/polling.rs:1427-1432 | a dataset adds the windows whose ids are new, once each |
| `DatasetMerge.MergeDatasets` | crates/usage-daemon/src/polling.rs:1409-1455 | the merge of windows, detail and provenance records, for any list of datasets |
| `DatasetMerge.MergeExtendsTheFirst` | crates/usage-daemon/src/polling.rs:1413-1432 | the first dataset's windows come first as they were, and distinct ids stay distinct |
| `DatasetMerge.RecordListsFirstWriter` | crates/usage-daemon/src/polling.rs:1424-1440 | a record lists a window id exactly when its dataset is the first that has it, so the records are disjoint and cover everything |
| `DatasetMerge.MergedWindow` | crates/usage-daemon/src/polling.rs:1427-1432 | every merged window is one of the first dataset's, or the first writer's first window with its id |
| `DatasetMerge.LookupFindsTheContributor` | crates/usage-core/src/model.rs:78-87 | the provenance lookup names the dataset that contributed the window |
| `DatasetMerge.KeyHasFirstWriter` | crates/usage-daemon/src/polling.rs:1434-1439 | without typed names in `extra`, a record lists a key exactly when its dataset is the first that carries it, and the merged value is that dataset's |
| `Framing.BufReader.ReadFrame` | crates/usage-daemon/src/server.rs:1049-1085 | the frame read from buffers is the first frame of the stream as a whole, and what is left is what follows it, however the stream was split |
| `Framing.BoundedWriter.Write` | crates/usage-daemon/src/server.rs:949-959 | a write is refused, and nothing changed, exactly when it would exceed the bound |
| `Framing.EncodeResponse` | crates/usage-daemon/src/server.rs:904-931 | the response is the whole body, or the error envelope and a close exactly when the body with its newline exceeds the limit |
| `Framing.HandleClient` | crates/usage-daemon/src/server.rs:89-144 | what the server writes follows from the input stream as a whole and from how the daemon answers its n-th request, whatever the buffers were |
| `Framing.EncodeRequests` | crates/usage-cli/src/client.rs:131-151 | the payload is one line per request |
| `Framing.ReadResponses` | crates/usage-cli/src/client.rs:107-127 | the client's response loop, with a closed connection and an oversized response |
| `Framing.EncodedResponseIsAccepted` | crates/usage-cli/src/client.rs:153-180 | every response the server encodes is read back whole by the client |
| `Framing.BatchIsAnsweredInOrder` | crates/usage-cli/src/client.rs:81-128 | a batch of requests gets exactly the daemon's answers, in order, each as the daemon stood at that request |
| `Framing.SilentLineIsSkipped` | crates/usage-daemon/src/server.rs:119-121 | a line of white space only gets no answer and counts for nothing |
| `Framing.CarriageReturnIsDropped` | crates/usage-daemon/src/server.rs:1049-1085 | a carriage return before the newline is not part of the line |
| `Framing.OversizedRequestIsRefused` | crates/usage-daemon/src/server.rs:107-117 | a request of more than 64 KiB with its newline is refused, and nothing behind it is read |
| `Framing.OversizedAnswerEndsTheBatch` | crates/usage-daemon/src/server.rs:140-142 | an answer that is too large reaches the client as the error envelope, and later requests find the connection closed |
| `Framing.FramesAreThePieces` | crates/usage-daemon/src/server.rs:1049-1085 | reading frame by frame equals cutting the whole stream at its newlines, up to the first piece that is too large |
| `Framing.SessionIsOneShot` | crates/usage-daemon/src/server.rs:89-144 | so does the whole session |
| `Debounce.ChangeLog.ScheduleProviders` | crates/usage-daemon/src/local_logs.rs:244-273 | every reported provider with a target is rescheduled and no other |
| `Debounce.ChangeLog.FireDeadline` | crates/usage-daemon/src/local_logs.rs:179-195 | exactly the due providers are removed, remembered and returned |
| `Debounce.ChangeLog.Retarget` | crates/usage-daemon/src/local_logs.rs:122-142 | new targets keep what belongs to active providers |
| `Debounce.RetargetedEntry` | crates/usage-daemon/src/local_logs.rs:122-142 | a provider that lost its target is forgotten, its pending change and last refresh included; one that has a target keeps both |
| `Debounce.NoChangeIsDropped` | crates/usage-daemon/src/local_logs.rs:119-197 | a change is followed by a refresh or still pending |
| `Debounce.ChangeIsServedInTime` | crates/usage-daemon/src/local_logs.rs:255-271 | a change is refreshed by the first change plus the maximum latency, or the last refresh plus the minimum interval, plus the lateness of timers |
| `Debounce.QuietChangeIsServedPromptly` | crates/usage-daemon/src/local_logs.rs:255-271 | a change that no other follows is refreshed after the debounce, or once the rate limit allows |
| `Debounce.RefreshesAreSpaced` | crates/usage-daemon/src/local_logs.rs:261-269 | refreshes of one provider are at least the minimum interval apart |
| `Debounce.RefreshWaitsForQuiet` | crates/usage-daemon/src/local_logs.rs:255-271 | in every run a refresh comes no earlier than the debounce after the latest change before it, or the maximum latency after the first change it serves |
| `Debounce.FirstRefreshCanBePutOff` | crates/usage-daemon/src/local_logs.rs:261-269 | for every target, every lateness and every span of time, a run in which a provider that was never refreshed waits that long |
| `LogRotation.LogState.WriteBuffer` | crates/usage-daemon/src/managed_log.rs:65-74 | a write rotates exactly when the log would grow past the cap, and counts what was accepted |
| `LogRotation.LogState.RotateFiles` | crates/usage-daemon/src/managed_log.rs:82-100 | the rotation, stopped at any of its steps |
| `LogRotation.Open` | crates/usage-daemon/src/managed_log.rs:27-49 | opening, failing at any step without a writer; a log found full is rotated at once |
| `LogRotation.RotatesExactly` | crates/usage-daemon/src/managed_log.rs:66-68 | a write rotates first exactly when the log holds something and would grow beyond 5 MiB |
| `LogRotation.RotationExactly` | crates/usage-daemon/src/managed_log.rs:82-100 | where a rotation leaves every file and the open handle, for every step that may fail |
| `LogRotation.RotationDropsTheOldest` | crates/usage-daemon/src/managed_log.rs:82-100 | a rotation, finished or not, drops at most archive 3 and nothing else |
| `LogRotation.WriteKeepsSuffix` | crates/usage-daemon/src/managed_log.rs:65-74 | a write attempt keeps the retained text a suffix of everything written |
| `LogRotation.LogIsASuffix` | crates/usage-daemon/src/managed_log.rs:27-100 | after any writes, rotations and failures the archives and the log are the end of everything written |
| `LogRotation.AcceptedWriteIsRetainedExactly` | crates/usage-daemon/src/managed_log.rs:65-74 | an accepted write ends the retained text exactly when the open file has not been deleted |
| `LogRotation.FailedWriteLosesExactly` | crates/usage-daemon/src/managed_log.rs:65-100 | an attempt that writes nothing loses nothing exactly when it does not rotate, fails before the oldest archive is removed, or that archive is empty |
| `LogRotation.CleanRunsKeepTwoFiles` | crates/usage-daemon/src/managed_log.rs:65-100 | a run without faults keeps everything, or the end of it and then more than two full files |
| `LogRotation.FailedReopensEmptyTheLog` | crates/usage-daemon/src/managed_log.rs:82-100 | four attempted writes whose rotation cannot reopen the log leave no file at all |
| `LogRotation.WriteKeepsCount` | crates/usage-daemon/src/managed_log.rs:65-74 | the byte counter covers the open file and never saturates |
| `LogRotation.SizesAreKept` | crates/usage-daemon/src/managed_log.rs:27-100 | from an opened log on, rotated first when it was full: the counter is the size of the open file unless setting permissions failed, and every file is within the cap or one single write |
| `AnsiText.VisibleLen` | crates/usage-cli/src/render/style.rs:206-224 | the visible length is the length of the stripped text |
| `AnsiText.StripAnsi` | crates/usage-cli/src/render/style.rs:236-254 | stripping removes exactly the escape sequences |
| `AnsiText.SequenceIsRemoved` | crates/usage-cli/src/render/style.rs:236-254 | a sequence ends with the first final byte behind its bracket, and nothing of it shows |
| `AnsiText.StripIsIdempotent` | crates/usage-cli/src/render/style.rs:236-254 | stripped text has nothing left to strip |
| `AnsiText.TruncateFits` | crates/usage-cli/src/render/style.rs:195-204 | text that fits is kept, other text is cut to exactly the width asked for |
| `AnsiText.TruncateShows` | crates/usage-cli/src/render/style.rs:195-204 | a text that is cut shows its own first characters and an ellipsis |
| `AnsiText.PaintWidth` | crates/usage-cli/src/render/style.rs:37-43 | painting adds no width exactly when the text closes its sequences, and two characters otherwise |
| `TableLayout.Widths` | crates/usage-cli/src/render/table.rs:50-67 | the measured column widths |
| `TableLayout.ColumnWidthIsMaximum` | crates/usage-cli/src/render/table.rs:50-67 | a column is as wide as its widest cell |
| `TableLayout.ShrinkWidths` | crates/usage-cli/src/render/table.rs:70-88 | the loop terminates and computes the shrunk widths in place |
| `TableLayout.ShrinkingIsFair` | crates/usage-cli/src/render/table.rs:70-88 | the table fits or every column is at its floor, no reducible column is more than one wider than a shrunk one, and no more is taken than needed |
| `TableLayout.PushRow` | crates/usage-cli/src/render/table.rs:90-108 | the loop appends the line of padded cells |
| `TableLayout.RenderWithWidth` | crates/usage-cli/src/render/table.rs:28-48 | the output is the header, the rule and the rows, trimmed at the end |
| `TableLayout.LineWidth` | crates/usage-cli/src/render/table.rs:90-108 | a line is as wide as its columns and gaps |
| `TableLayout.CellShows` | crates/usage-cli/src/render/table.rs:90-108 | a cell shows its own text, cut when it does not fit, and spaces up to its width |
| `TableLayout.LineShows` | crates/usage-cli/src/render/table.rs:90-108 | a line shows the texts of its row, column by column, with two spaces between |
| `TableLayout.LinesAreAligned` | crates/usage-cli/src/render/table.rs:28-48 | before the final trim every line of a table has the same visible width, within the maximum unless all columns are at their floor |
| `TableLayout.TableShows` | crates/usage-cli/src/render/table.rs:28-48 | the table shows its headers, a rule under each column, and its rows, line by line |
| `TableLayout.TrimmedIsWhiteSpace` | crates/usage-cli/src/render/table.rs:47 | the final trim takes white space from the very end, so at most padding of the last rows and line ends |
| `TableLayout.WhiteSpaceIs` | crates/usage-cli/src/render/table.rs:47 | white space is exactly the 25 code points with that Unicode property |

## Left out

- The Keychain helper process, its lock file and user interface, and writers to the Keychain outside the broker.
- The caller's side of the broker (`Broker::invoke`): timeouts, the bounded queue's capacity, abandoning a reply.
- SQLite storage, provider collectors and adapters, JSON encoding, command-line parsing, and the file watcher.
- Job and flight identities are counters, because the source's identifiers are unique by construction.
- Provider lists of scopes are sets, because the source sorts and deduplicates them before they become keys.
- A panic after a job has become terminal, and a claim whose future is dropped while it seeds: liveness of such jobs.
- The import jobs (`import_jobs.rs`), which repeat the registry in a simpler form.
- The stored alert state that a configuration change clears is not restored by a rollback, neither here nor in the source.
- Quiet hours, snoozing and per-account rules of alerts, which choose the policy of one evaluation or suppress it.
- Of `forecast_window` the confidence and how the expected percentage is computed; time arithmetic does not overflow.
- Of `aggregate_usage_dashboard` the provenance flags, model names, catalog fields and the covered percentage.
- Of `merge_datasets` the warnings, daily usage, events, e-mail, collection mode and time stamps.
- The order in which `present_keys` lists the names of `extra`, and the order of the keys in a record.
- Rounding of floating-point numbers, and sub-millisecond parts of instants.
- RefreshTheorems.TerminalIsFinal: covers status and joined flights; a discovery that a flight tells a terminal job's entry may still append to its list.
- Debounce.ChangeIsServedInTime: needs timers served on time for a provider that was never refreshed, because the code gives no bound otherwise.
- LogRotation.Open: creating the directory, refusing symbolic links, and a failure to read the size of the log are not modelled.
- Framing.HandleClient: the idle timeout and the write timeout, which end a connection early, are not modelled.
- Framing.ReadResponses: the connect, read, write and exchange timeouts of the client are not modelled.
