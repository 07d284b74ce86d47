# A verified model of the operational scripts

The scripts under `scripts/` of this repository run, watch, back up and test a paper-trading runtime. Several of them
hold real algorithms with strong claims. This project models those algorithms in Dafny and proves the claims, for every
input and every run.

Every component comes in the form its code has. Code that updates fields or arrays step by step is a class or a method
with loops, proved equal to a specification over values; the laws are lemmas about that specification. The modules whose
name ends in `Meaning` or `Verdicts` say what a decision means by the fields of the input alone, both ways.

| modules | what they model |
|---|---|
| `Observation`, `ObservationVerdicts`, `ObservationCompleteness`, `ObservationMisses` | a poller that reads a capped newest-first window of a growing log and decides whether it missed anything |
| `CanonicalText`, `CanonicalTokens`, `CanonicalInjective`, `LexOrder` | the key-sorting printer whose text is hashed as evidence |
| `Supervisor`, `SupervisorRuns` | the process supervisor: restart budget, backoff, lease conflicts |
| `Calendar`, `Retention`, `RetentionPrune`, `RetentionLaws`, `RetentionScript` | backup retention over days and ISO weeks, and the script around it |
| `RateLimit`, `RateLimitMeaning`, `Dispatch`, `DispatchMeaning` | the dispatch loop, its rate-limit evidence and its sleeps |
| `ProposalLoop`, `ProposalLoopLaws`, `ProposalMeaning`, `ProposalSleeps` | the proposal loop with its memory of patches and failure codes, and its sleeps |
| `HunkCounts`, `HunkMeaning`, `HunkText` | the in-place rewriting of hunk counts in a unified diff |
| `Reconcile`, `ReconcileLaws`, `ReconcileMeaning` | the in-place reconciliation of a state file |
| `Indicators`, `IndicatorLoops`, `Trend`, `IndicatorMeaning`, `IndicatorMemo` | the indicators of the catalogue screen: definitions, incremental loops, memo |
| `TradeLoop`, `TradeMeaning`, `TradeLaws`, `Screen`, `ScreenMeaning`, `CausalRules`, `RuleMeaning` | the trade loop, cost stress, windows, discovery and holdout tests |
| `ForbiddenWalk` | the guard that refuses cycles and forbidden keys in a request |
| `Closure` | the import closure and the classification built on it |
| `AutopilotRuntime`, `AutopilotLaws`, `AutopilotMeaning` | the crash-tolerant runtime state |
| `History`, `ResearchCandles` | the paginated history readers |
| `Prelude`, `Numbers`, `Text` | shared values, numbers and text helpers |

`dafny verify dfyconfig.toml` checks the whole project.

## Findings

Where a plain claim about the code is false, the model keeps the code, names an input, and proves exactly when the claim
holds.

- `PASS` of the observation does not mean that nothing was missed. It means that exactly what the collected windows show
  is recorded (`PassRecordsWhatItShows`). An event of the log is missed exactly when it sorts behind everything shown at
  every read from its arrival on (`MissedIffBehindEveryWindow`), provided ids of one millisecond compare unequal, as
  `localeCompare` has it unless two ids are canonically equivalent texts (`TieHidesEither`). `PassCanMissAnEvent` is a
  run that misses one. Nothing is missed when, next to a full window, arrivals sort before the newest event shown before
  (`PassIsComplete`); the monotonic timestamps that the code's comment assumes are one case of that, runs without a full
  window another.
- The canonical text under the evidence hashes determines every JSON value up to key order, also with undefined fields.
  Over all values it collides exactly where a non-finite number stands for null, or an array of one undefined item for
  the empty array (`CanonicalDecidesSettled`, `NotJsonCollides`).
- The supervisor's constructor does not look at the backoff bounds together, nor ask that they are safe integers. With the
  maximum below the initial one, beyond 2^53 - 1, or infinite, the first ordinary exit throws and nothing restarts
  (`AcceptedConfigurationCanStall`, `RestartFollowsIffBackoffOrdered`).
- The dispatch comment says that a daily-quota stop is never locally retried. A reply classified `RATE_LIMITED` that
  carries the quota marker only in its stop reason is retried, with a sleep of up to 25 hours, in the dispatch loop
  (`Dispatch.QuotaMarkedReplySleepsLong`, `Dispatch.LongSleepIffQuotaMarked`) and in the proposal loop
  (`ProposalSleeps.QuotaReplySleepsLong`, `ProposalSleeps.LongSleepIffQuotaMarked`).
- The hunk normalizer is idempotent on lines, and on raw text exactly when there is no CR CR LF
  (`NormalizeTextIsIdempotentIff`).
- In the autopilot runtime the write after a successful tick is inside the `try`, so a failed write counts the outcome
  and tries again: one cycle can count two outcomes (`OneOutcomeIffUnexposed`). A blank error message makes the stored
  state unloadable (`BlockedRestoresIffNamed`). A stop before the first start resets the counters
  (`StopBeforeStartForgets`).
- The base window count of discovery and the base mean of the holdout can be dropped: the stress tests beside them imply
  them (`BaseTestsAreImplied`).

## Model

| member | source | states |
|---|---|---|
| `Observation.Observer.constructor` | scripts/actual-paper-runtime-e2e.js:415-424 | the observer starts with the validity, newest id and fullness of the initial window and no evidence |
| `Observation.Observer.ValidProjectionOrder` | scripts/actual-paper-runtime-e2e.js:400-414 | the scan accepts a window exactly when all ids and times are usable, ids are distinct over the whole window and neighbours are newest first |
| `Observation.Observer.RollWindow` | scripts/actual-paper-runtime-e2e.js:432-456 | rolling the window updates anchor, counters and the truncation flag as the continuity rule demands |
| `Observation.Observer.AdmitEvent` | scripts/actual-paper-runtime-e2e.js:457-497 | one event is skipped, refused, recorded once, found equal, or found in conflict, exactly as the per-event rule says |
| `Observation.Observer.CollectSnapshot` | scripts/actual-paper-runtime-e2e.js:431-498 | a whole snapshot: roll the window, then admit its events in order until the first failure |
| `Observation.Observer.Run` | scripts/actual-paper-runtime-e2e.js:556-607 | the polling loop equals its specification over every script of polls, stop reason and final state included |
| `ObservationCompleteness.ProjectionIsNewest` | scripts/actual-paper-runtime-e2e.js:390-399 | on a log whose events are each newer than all before, a newest-first projection is the reversed tail of the log |
| `ObservationCompleteness.WholeLogIsShown` | scripts/actual-paper-runtime-e2e.js:390-399 | a window as wide as the log shows every event of it, in whatever order they were appended |
| `ObservationCompleteness.LinkedWindowCovers` | scripts/actual-paper-runtime-e2e.js:432-456 | when the anchor survives in a window after a full one, and what arrived in between sorts before the newest event shown, the window holds all of it |
| `ObservationCompleteness.CollectRecords` | scripts/actual-paper-runtime-e2e.js:432-498 | an untruncated collection leaves no unseen in-scope event out |
| `ObservationCompleteness.CollectKeepsTracked` | scripts/actual-paper-runtime-e2e.js:431-498 | one poll keeps the link between the observer's state and the log |
| `ObservationCompleteness.PassKeepsTracked` | scripts/actual-paper-runtime-e2e.js:556-607 | every run that ends PASS keeps that link up to its last collected poll |
| `ObservationCompleteness.PassIsComplete` | scripts/actual-paper-runtime-e2e.js:400-636 | PASS means complete, over any polls, growth and window sizes in which what arrives next to a full window sorts before the newest event the earlier window shows: every event in scope appended since the initial snapshot is recorded, everything recorded is such an event under its own id, and the decision cycles are at least the minimum |
| `ObservationCompleteness.MonotoneArrivesOnTop` | scripts/actual-paper-runtime-e2e.js:396-399 | timestamps that are monotonic with insertion order, the assumption the code names, meet that hypothesis whatever the reads |
| `ObservationCompleteness.ShortWindowsArriveOnTop` | scripts/actual-paper-runtime-e2e.js:436-437 | without a full window every order of arrival meets it |
| `ObservationCompleteness.PassRecordsWhatItShows` | scripts/actual-paper-runtime-e2e.js:457-497 | with no hypothesis on the log, a passing run has recorded an event exactly when it is in scope and a collected window showed it |
| `ObservationMisses.LeftOutIffBehind` | scripts/actual-paper-runtime-e2e.js:390-399 | where ids of one millisecond compare unequal, a projection leaves an event of its log out exactly when everything it shows sorts before the event |
| `ObservationMisses.MissedIffBehindEveryWindow` | scripts/actual-paper-runtime-e2e.js:390-399 | a passing run misses an event in scope of the log exactly when, at every collected read from its arrival on, the event sorts behind all that is shown; nothing is asked of the order of arrival, and of the comparison only that it separates ids of one millisecond |
| `ObservationMisses.TieHidesEither` | scripts/actual-paper-runtime-e2e.js:408-408 | two ids of one millisecond that compare equal leave the choice open: a window of one may show either event, and the other is left out without being behind it |
| `ObservationMisses.BackdatedEventIsInvisible` | scripts/actual-paper-runtime-e2e.js:394-399 | a late event leaves a projection unchanged exactly when it sorts before nothing in it |
| `ObservationMisses.PassCanMissAnEvent` | scripts/actual-paper-runtime-e2e.js:394-399 | a run of one poll that ends PASS without an event in scope of its log: full windows of 250 and an event dated before all they show |
| `ObservationVerdicts.AdmitsIff` | scripts/actual-paper-runtime-e2e.js:457-497 | one event goes through exactly when it is acceptable by its own fields and, if in scope, agrees with what is recorded under its id and fits in |
| `ObservationVerdicts.AdmitsAllIff` | scripts/actual-paper-runtime-e2e.js:457-497 | a whole window goes through exactly when all its events do and agree with each other, and the record can hold them |
| `ObservationVerdicts.CollectsIff` | scripts/actual-paper-runtime-e2e.js:431-498 | one collected poll keeps the record whole exactly when its window hangs together with the one before it and goes through |
| `ObservationVerdicts.PassesIff` | scripts/actual-paper-runtime-e2e.js:556-636 | a run is PASS, over every initial window and every script of polls, exactly when some poll is the first at which minimum duration and decision cycles are both met, and every poll up to it came within the time, found the process alive, and showed a sound window that agrees and hangs together with all before; that poll is the last one collected |
| `ObservationVerdicts.FailsIff` | scripts/actual-paper-runtime-e2e.js:556-636 | a run is FAIL exactly when a poll begun in time shows a failure while all polls before it succeeded without reaching both minimums or the end of the time: the process dead before or after, the read refused, or in time a snapshot that is unreadable, unsound or not admitted; it stops for its minimums exactly at the first poll that reaches them |
| `ObservationVerdicts.FailureIsOfThePoll` | scripts/actual-paper-runtime-e2e.js:556-607 | a failing run ends with the stop reason and the text of the poll it fails at: of what went wrong first there |
| `ObservationVerdicts.MinimumIsReached` | scripts/actual-paper-runtime-e2e.js:596-601 | a run that stops for its minimums collected its last poll between minimum and maximum duration, and no earlier collected poll had met both minimums |
| `CanonicalInjective.StringRoundTrip` | scripts/actual-paper-runtime-e2e.js:12-16 | a string-literal reader undoes the printer's escapes for every string of code units, lone surrogates included |
| `CanonicalInjective.ValueRoundTrip` | scripts/actual-paper-runtime-e2e.js:12-16 | a parser undoes the printer on every exact value, undefined fields and items included, in front of any rest that starts with a delimiter, up to the order of keys |
| `CanonicalInjective.SamePrintsAlike` | scripts/actual-paper-runtime-e2e.js:12-16 | values equal up to key order print alike |
| `CanonicalInjective.NormalFormDecides` | scripts/actual-paper-runtime-e2e.js:12-16 | values with one normal form are equal up to key order |
| `CanonicalInjective.CanonicalDecidesSame` | scripts/actual-paper-runtime-e2e.js:12-16 | two exact values, all JSON values among them, print alike if and only if they are equal up to key order |
| `CanonicalInjective.SettledPrintsAlike` | scripts/actual-paper-runtime-e2e.js:12-16 | every value prints like the exact one in which a non-finite number is null and an array of one undefined item is empty |
| `CanonicalInjective.ExactIsSettled` | scripts/actual-paper-runtime-e2e.js:12-16 | settling leaves a value as it is exactly when the value is exact |
| `CanonicalInjective.CanonicalDecidesSettled` | scripts/actual-paper-runtime-e2e.js:12-16 | so any two values print alike if and only if they are equal up to key order once settled: nothing else collides |
| `CanonicalInjective.EvidenceHashBindsPayload` | scripts/actual-paper-runtime-e2e.js:678-683 | the hash record of written evidence matches that of another payload exactly when the payloads are equal as maps, and the payload can be read back from the evidence |
| `CanonicalInjective.NotJsonCollides` | scripts/actual-paper-runtime-e2e.js:12-16 | the two collisions there are: an array of one undefined item prints like the empty one, a number that is not finite like null |
| `CanonicalInjective.SortAscends` | scripts/actual-paper-runtime-e2e.js:15-15 | sorting the keys puts them in strictly ascending order of their code units |
| `CanonicalTokens.EscapeIsShortest` | scripts/actual-paper-runtime-e2e.js:12-16 | the escape of a code unit is the shortest of all texts that a reader takes for that unit, so short escapes are used exactly where there are any |
| `CanonicalTokens.MarksAreJson` | scripts/actual-paper-runtime-e2e.js:12-16 | brackets, separators and words are those of JSON |
| `LexOrder.AscendingIsUnique` | scripts/actual-paper-runtime-e2e.js:15-15 | two ascending key lists with the same keys are the same list, so sorting forgets the original order |
| `LexOrder.LessIff` | scripts/actual-paper-runtime-e2e.js:15-15 | one key sorts before another exactly when it is a proper prefix of it or has the smaller code unit at the first difference |
| `Supervisor.PaperRuntimeProcessSupervisor.constructor` | scripts/paper-runtime-supervisor.js:40-71 | a supervisor of an accepted configuration begins in the initial state |
| `Supervisor.ConfigError` | scripts/paper-runtime-supervisor.js:55-57 | construction fails, with the error of the first failing check, exactly for the configurations that are not accepted; each check asks for a safe integer |
| `Supervisor.PaperRuntimeProcessSupervisor.StartRuntime` | scripts/paper-runtime-supervisor.js:87-99 | start is the start step, or an error while stopping |
| `Supervisor.PaperRuntimeProcessSupervisor.StopRuntime` | scripts/paper-runtime-supervisor.js:101-110 | stop cancels the pending restart and kills the child there is |
| `Supervisor.PaperRuntimeProcessSupervisor.LaunchChild` | scripts/paper-runtime-supervisor.js:112-132 | launching records the start time and the child, unless stopping |
| `Supervisor.PaperRuntimeProcessSupervisor.HandleTimer` | scripts/paper-runtime-supervisor.js:173-176 | a fired restart timer is cleared and launches |
| `Supervisor.PaperRuntimeProcessSupervisor.HandleExit` | scripts/paper-runtime-supervisor.js:138-145 | an exit is the exit step: uptime, lease conflict, budget and restart |
| `Supervisor.PaperRuntimeProcessSupervisor.SettleExit` | scripts/paper-runtime-supervisor.js:147-177 | after an exit the budget decides between giving up, a restart delay, and a throw |
| `Supervisor.PaperRuntimeProcessSupervisor.Snapshot` | scripts/paper-runtime-supervisor.js:73-85 | the reported status is the function of the fields that the laws below speak of |
| `SupervisorRuns.BackoffBounds` | scripts/paper-runtime-supervisor.js:12-17 | a delay exists exactly for a safe attempt number and bounds that are ordered safe integers, and lies between them |
| `SupervisorRuns.StepKeeps` | scripts/paper-runtime-supervisor.js:87-177 | every enabled event keeps the invariant: exclusion, conservation, journal order, budget, and a supervised process unless a throw intervened |
| `SupervisorRuns.ReachableInvariant` | scripts/paper-runtime-supervisor.js:87-177 | the invariant holds after every run; it includes that every exit was timed from its launch, that the streak is positive exactly when the window start is set, and that restartAttempt is at most the streak plus one |
| `SupervisorRuns.BudgetHolds` | scripts/paper-runtime-supervisor.js:147-162 | since the last stable exit or manual restart, unstable exits scheduled at most maxRestarts restarts, all within the window of the first such exit; stability is read off the times of launches and exits in the journal, not off the counters |
| `SupervisorRuns.ExclusionHolds` | scripts/paper-runtime-supervisor.js:73-136 | child and timer are never both there; after giving up nothing launches until a start; nothing launches after a stop; the status says which |
| `SupervisorRuns.ConservationHolds` | scripts/paper-runtime-supervisor.js:112-177 | launches are starts plus fired timers and exits plus the running child; restartCount is fired plus cancelled plus pending; every delay is within its bounds |
| `SupervisorRuns.StableExitNeverFails` | scripts/paper-runtime-supervisor.js:150-162 | an exit of a child launched the stable window or longer ago never gives up and restores the whole budget |
| `SupervisorRuns.ExitsAreTimed` | scripts/paper-runtime-supervisor.js:138-141 | over every run, the uptime of an exit is the time since the last launch before it, or zero when the clock went back; both times stand in the journal |
| `SupervisorRuns.NotesAreOfTheEvent` | scripts/paper-runtime-supervisor.js:87-177 | what an event adds to the journal carries that event's own time, exit code and lease-conflict marker |
| `SupervisorRuns.GivesUpIff` | scripts/paper-runtime-supervisor.js:147-162 | an exit ends FAILED exactly when the unstable exits since the last stable one outnumber the budget or the first lies the whole window back, all read off the times of launches and exits |
| `SupervisorRuns.DelayIsBackoff` | scripts/paper-runtime-supervisor.js:163-172 | the delay of a restart is the lease retry after a conflict, otherwise the backoff for the number of ordinary restarts since the last stable exit |
| `SupervisorRuns.BackoffDoubles` | scripts/paper-runtime-supervisor.js:12-17 | the backoff begins at the initial one and doubles from attempt to attempt up to the maximum or thirty doublings |
| `SupervisorRuns.StatusTells` | scripts/paper-runtime-supervisor.js:73-85 | over every run the status is what the journal says: stopped, failed without a manual start since, a child launched and not exited, or a timer pending |
| `SupervisorRuns.RestartFollowsIffBackoffOrdered` | scripts/paper-runtime-supervisor.js:12-17 | an exit within the budget is followed by a restart exactly when it was a lease conflict or the backoff bounds are ordered safe integers; otherwise the throw leaves the supervisor offline |
| `SupervisorRuns.AcceptedConfigurationCanStall` | scripts/paper-runtime-supervisor.js:49-57 | the constructor accepts configurations whose first failure stalls them: a maximum below the initial backoff, one beyond the safe integers, and an infinite one |
| `Calendar.EarlierIsInstantOrder` | scripts/sqlite-backup.js:19-29 | field-by-field order of valid UTC stamps is the order of their instants, for all years from 0 to 9999 |
| `Calendar.PeriodsAreMonotone` | scripts/sqlite-backup.js:44-57 | later stamps never fall into an earlier day or week |
| `Calendar.MondayIsWeekStart` | scripts/sqlite-backup.js:54-56 | the weekly bucket of a date is the Monday on or before it, less than a week back, where Mondays are the days four more than whole weeks from Thursday 1970-01-01 |
| `Calendar.EveryDayCountsOne` | scripts/sqlite-backup.js:19-29 | from one date to the next of the calendar, over month ends and leap days, the distance to 1970-01-01 grows by one |
| `Calendar.WeekDayFromDistance` | scripts/sqlite-backup.js:153-153 | the weekday of every valid date is four, Thursday, plus its distance in days from 1970-01-01, modulo seven |
| `Calendar.KnownWeekDays` | scripts/sqlite-backup.js:54-56 | the Thursday of the epoch and other known dates |
| `Retention.BackupStampIff` | scripts/sqlite-backup.js:9-29 | a name carries a stamp exactly when it is the name the script gives to a snapshot of that moment, a real one of the calendar |
| `Retention.NameOrderIsInstantOrder` | scripts/sqlite-backup.js:60-62 | name order is time order among canonical backups |
| `Retention.BucketsAreMonotone` | scripts/sqlite-backup.js:44-57 | a name that does not sort later is not in a later bucket |
| `Retention.BucketOfSnapshot` | scripts/sqlite-backup.js:44-57 | the bucket of a snapshot's name is the day of its moment, counted from 1970-01-01, or the Monday on or before it, four days more than whole weeks from that Thursday |
| `RetentionPrune.ListNewestFirst` | scripts/sqlite-backup.js:60-62 | the listing holds exactly the backup names, in descending order |
| `RetentionPrune.LoopBodyDecides` | scripts/sqlite-backup.js:71-90 | at every point of the loop, the set of kept buckets decides each name as the rule over the whole directory does |
| `RetentionPrune.BackupDirectory.PruneOne` | scripts/sqlite-backup.js:72-89 | one pass of the loop body |
| `RetentionPrune.BackupDirectory.PruneListed` | scripts/sqlite-backup.js:71-90 | the loop removes exactly the names that the rule over the whole directory removes |
| `RetentionPrune.BackupDirectory.Prune` | scripts/sqlite-backup.js:59-91 | what is left is exactly the survivors; a protected name that is not a verified canonical snapshot is an error that changes nothing |
| `RetentionPrune.BackupDirectory.PruneRetention` | scripts/sqlite-backup.js:93-96 | the daily and then the weekly pass; a refused daily name changes nothing, a refused weekly name leaves the survivors of the daily pass |
| `RetentionLaws.OthersSurvive` | scripts/sqlite-backup.js:73-77 | the protected file and every file that is malformed or unverified survive |
| `RetentionLaws.OnePerBucket` | scripts/sqlite-backup.js:78-87 | no two verified survivors share a bucket |
| `RetentionLaws.RetentionIsBounded` | scripts/sqlite-backup.js:84-87 | at most keepBuckets buckets survive, the reserved one included |
| `RetentionLaws.NewestBucketsAreKept` | scripts/sqlite-backup.js:84-87 | a pass keeps the most recent buckets that have verified snapshots, as many as the policy allows and no fewer, each by its newest snapshot; the protected one's bucket has its own place |
| `RetentionLaws.SevenDaysFourWeeks` | scripts/sqlite-backup.js:93-96 | the two passes keep seven days and four weeks under their own prefixes |
| `RetentionLaws.PruneIsIdempotent` | scripts/sqlite-backup.js:59-91 | pruning twice is pruning once |
| `RetentionLaws.EarlyPruneIsHarmless` | scripts/sqlite-backup.js:136-158 | for one policy, pruning before the snapshot and again after it leaves what one prune over old files and snapshot leaves |
| `RetentionLaws.PassesDoNotInterfere` | scripts/sqlite-backup.js:93-96 | the two passes decide independently: the survivors are those of both |
| `RetentionScript.ScriptIsOnePrune` | scripts/sqlite-backup.js:136-158 | both passes, the new daily and perhaps weekly snapshot, and both passes with them protected leave what one run of both passes over everything would leave |
| `RetentionScript.NewSnapshotsSurvive` | scripts/sqlite-backup.js:158-164 | the snapshots just made survive both passes |
| `RetentionScript.Take` | scripts/sqlite-backup.js:117-128 | a snapshot is written under a free name only, and gets its sidecar only when it is sound |
| `RetentionScript.WeeklyTaken` | scripts/sqlite-backup.js:153-153 | the weekly copy is made exactly on days whose distance from 1970-01-01, counted from Thursday, falls on a Sunday |
| `RetentionScript.BackUp` | scripts/sqlite-backup.js:134-168 | the script fails exactly when a snapshot cannot be taken, so no closing check ever fires, and then loses nothing but what the early passes prune; otherwise files and sidecars are those that both passes keep of everything, the new snapshots and their sidecars among them, with a weekly one exactly on Sundays of the calendar |
| `RateLimit.ClampBounds` | scripts/autopilot-dispatch-retry.js:107-111 | a clamped delay lies between zero and its ceiling |
| `RateLimit.HintBounds` | scripts/autopilot-dispatch-retry.js:123-149 | a retry hint from header or payload, seconds or timestamp, never exceeds its ceiling |
| `RateLimit.BackoffBounds` | scripts/autopilot-dispatch-retry.js:194-199 | backoff with jitter stays within one minute, whatever the jitter source returns |
| `RateLimit.RetryableDecisions` | scripts/autopilot-dispatch-retry.js:268-295 | a bounded remediation decision that is retryable is a failure to remediate of a recoverable class, with the one recovery of that class |
| `RateLimitMeaning.AllowedDecisionsIff` | scripts/autopilot-dispatch-retry.js:268-295 | a remediation decision is accepted exactly when it is one of the allowed combinations of outcome, failure class, recovery and retry, given as a table |
| `RateLimitMeaning.RateLimitIsTold` | scripts/autopilot-dispatch-retry.js:151-166 | a reply counts as rate limited exactly when its status is 429, one of seven texts names a limit, or it decides to wait for the provider |
| `RateLimitMeaning.FirstCodeIs` | scripts/autopilot-dispatch-retry.js:84-93 | the code is that of the first text that names one |
| `RateLimitMeaning.HintIsFirstUsable` | scripts/autopilot-dispatch-retry.js:123-149 | the hint is the first delay of header and body, in the order of preference, that is not negative, in whole milliseconds under the ceiling |
| `RateLimitMeaning.BackoffIsJittered` | scripts/autopilot-dispatch-retry.js:194-199 | the backoff doubles from attempt to attempt up to a minute, moved by a tenth at most |
| `Dispatch.ResultSummary` | scripts/autopilot-dispatch-retry.js:323-331 | the reducer counts decisions |
| `Dispatch.SummaryAddsUp` | scripts/autopilot-dispatch-retry.js:323-331 | attempts are retries plus dispatched plus no action plus failed closed |
| `Dispatch.DispatchWithRetry` | scripts/autopilot-dispatch-retry.js:375-488 | the retry loop equals its recursion over every sequence of replies, its two argument errors included |
| `Dispatch.DispatchReturns` | scripts/autopilot-dispatch-retry.js:375-488 | it always returns, never reaching the trailing throw: all attempts but the last are retries, the last is not, one sleep per retry, and the result is the verdict on the last reply |
| `DispatchMeaning.RetriesIff` | scripts/autopilot-dispatch-retry.js:375-488 | a reply is followed by another attempt exactly when one is left and the reply is transient, said by its own fields |
| `DispatchMeaning.EndsAs` | scripts/autopilot-dispatch-retry.js:375-488 | how a call that stops at a reply ends, said by the reply's own fields |
| `DispatchMeaning.FirstLastingReplyDecides` | scripts/autopilot-dispatch-retry.js:375-488 | over every sequence of replies the call stops at the first that is not transient, or at the last allowed one, and that reply alone says how it ends |
| `Dispatch.LongSleepIffQuotaMarked` | scripts/autopilot-dispatch-retry.js:161-199 | a retry sleeps longer than a minute exactly when a reply classified as rate limited also carries a quota marker and a hint longer than that; never longer than the reporting ceiling |
| `Dispatch.SleepsAreBounded` | scripts/autopilot-dispatch-retry.js:375-488 | without such replies every sleep of every run lies between 0 and 60000 ms |
| `Dispatch.QuotaMarkedReplySleepsLong` | scripts/autopilot-dispatch-retry.js:167-178 | one such reply is retried after a sleep of 25 hours |
| `ProposalLoop.Runner.HandleCode` | scripts/autopilot-dispatch-retry.js:1218-1239 | a rejected proposal is retried once per code and then given up |
| `ProposalLoop.Runner.HandleDecision` | scripts/autopilot-dispatch-retry.js:1190-1216 | the worker's remediation decision is followed branch by branch |
| `ProposalLoop.Runner.HandleError` | scripts/autopilot-dispatch-retry.js:1077-1239 | every error of a proposal leads to the step its kind calls for, in the order of the tests |
| `ProposalLoop.Runner.HandlePatch` | scripts/autopilot-dispatch-retry.js:1241-1331 | a patch is refused as repeated, rejected by validation, or published with the files validation returned |
| `ProposalLoop.Runner.AttemptOnce` | scripts/autopilot-dispatch-retry.js:1031-1331 | one attempt |
| `ProposalLoop.Runner.Execute` | scripts/autopilot-dispatch-retry.js:1031-1334 | the loop equals its specification over every sequence of worker turns |
| `ProposalLoopLaws.AttemptLeads` | scripts/autopilot-dispatch-retry.js:1031-1331 | one attempt keeps the memory of patches and codes true to the journal, or ends the run as it should |
| `ProposalLoopLaws.RunEnds` | scripts/autopilot-dispatch-retry.js:1031-1334 | so every run ends within its budget of attempts |
| `ProposalLoopLaws.ProposalLoopIsSafe` | scripts/autopilot-dispatch-retry.js:981-1334 | over every sequence of worker replies: at most maxAttempts proposals, never the trailing throw, no patch validated twice, retried codes pairwise distinct, and publication at most once, last, with the files that validation of that attempt's patch returned |
| `ProposalLoopLaws.ProposalLoopReports` | scripts/autopilot-dispatch-retry.js:996-1334 | attempts are numbered in order and all but the last are retries, except that a rate-limit stop leaves no record; changed files are reported exactly by a dispatched run and are those published |
| `ProposalMeaning.ReadyIff` | scripts/autopilot-dispatch-retry.js:1043-1078 | a reply carries a proposal exactly when it is a successful answer without a rate limit that says PROPOSAL_READY, with a patch and a valid receipt |
| `ProposalMeaning.OtherRepliesFail` | scripts/autopilot-dispatch-retry.js:623-690 | every other reply but an abstention is a failure, with the reason of the first test it does not meet |
| `ProposalMeaning.ReadyRepliesDecide` | scripts/autopilot-dispatch-retry.js:1031-1334 | over every run exactly the patches that a ready reply is the first to bring are validated, and exactly those whose validation returned files are published |
| `ProposalMeaning.RepliesDecideAttempts` | scripts/autopilot-dispatch-retry.js:1031-1334 | over every run an attempt is followed by another exactly when one is left and its reply, the patches brought and the codes asked for before it allow one |
| `ProposalMeaning.AcceptedIsDispatched` | scripts/autopilot-dispatch-retry.js:1294-1331 | a run reports files exactly when its last reply brought a new valid patch whose publication was accepted |
| `ProposalMeaning.ErrorEndsAs` | scripts/autopilot-dispatch-retry.js:1080-1239 | which status an error that ends the run leads to, for each of the statuses exactly when |
| `ProposalMeaning.AsksFollowReplies` | scripts/autopilot-dispatch-retry.js:1033-1042 | over every run each attempt is asked with the last code that called for a new patch and the files of the last patch that did not apply |
| `ProposalMeaning.ListedIff` | scripts/autopilot-dispatch-retry.js:70-82 | a reason asks for a new patch exactly when it is a listed code or a listed sandbox code with details |
| `ProposalSleeps.LongSleepIffQuotaMarked` | scripts/autopilot-dispatch-retry.js:1146-1166 | an attempt sleeps longer than a minute exactly when attempts remain and a reply that is retried as rate limited carries a quota marker and a hint longer than that; never longer than the reporting ceiling |
| `ProposalSleeps.SleepsAreBounded` | scripts/autopilot-dispatch-retry.js:981-1334 | over every run sleeps stay below the reporting ceiling, and within a minute when no reply is retried across a quota |
| `ProposalSleeps.QuotaReplySleepsLong` | scripts/autopilot-dispatch-retry.js:1146-1166 | one such reply makes the loop sleep for 25 hours and go on |
| `HunkCounts.HeaderText` | scripts/autopilot-dispatch-retry.js:863-864 | a recognised hunk header consists of its fields and nothing else |
| `HunkCounts.HeaderRoundTrip` | scripts/autopilot-dispatch-retry.js:886-886 | a rendered header is recognised with the same fields |
| `HunkCounts.ScanBody` | scripts/autopilot-dispatch-retry.js:865-885 | the scan counts the old and new side of a hunk up to the line that ends it |
| `HunkMeaning.CountsAreLines` | scripts/autopilot-dispatch-retry.js:865-885 | every hunk has one body, up to the first line that is none, and its counts are the numbers of its lines on the old and on the new side |
| `HunkCounts.NormalizeInPlace` | scripts/autopilot-dispatch-retry.js:862-887 | rewriting in place, with earlier headers already rewritten, gives what rewriting every line from the original text gives |
| `HunkCounts.CountsSurvive` | scripts/autopilot-dispatch-retry.js:865-885 | rewriting headers changes the counts of no body, since a rewritten header still ends a scan |
| `HunkCounts.HeadersMatchBodies` | scripts/autopilot-dispatch-retry.js:886-886 | afterwards every header states the counts of the body after it |
| `HunkCounts.OnlyCountsChange` | scripts/autopilot-dispatch-retry.js:862-887 | the number of lines is kept, other lines are untouched, and a header keeps its starts and tail |
| `HunkCounts.NormalizeLinesIsIdempotent` | scripts/autopilot-dispatch-retry.js:860-889 | on lines the normalizer is idempotent |
| `HunkText.NormalizeUnifiedDiffHunkCounts` | scripts/autopilot-dispatch-retry.js:860-889 | the whole normalizer on text |
| `HunkText.NormalizeTextIsIdempotentIff` | scripts/autopilot-dispatch-retry.js:861-861 | on raw text it is idempotent exactly when the text has no CR CR LF, because carriage returns are replaced in a single pass |
| `Reconcile.BlocksAreBlocks` | scripts/aipos-state-reconcile.js:64-71 | splitting at top-level keys loses nothing |
| `Reconcile.BlocksOfFlatten` | scripts/aipos-state-reconcile.js:64-71 | blocks laid out one after another are split into the same blocks |
| `Reconcile.Reconciler.Flush` | scripts/aipos-state-reconcile.js:47-63 | flushing edits the pending block and records the change, or does nothing |
| `Reconcile.Reconciler.NextBlock` | scripts/aipos-state-reconcile.js:65-70 | at a key line the cursor moves by what the flush inserted and stays on the key line |
| `Reconcile.Reconciler.LastBlock` | scripts/aipos-state-reconcile.js:72-72 | the last block is flushed after the loop |
| `Reconcile.Reconciler.Reconcile` | scripts/aipos-state-reconcile.js:43-74 | the splice-and-adjust loop equals the version that splits, maps one block transform and concatenates |
| `ReconcileLaws.BlocksKeepOtherLines` | scripts/aipos-state-reconcile.js:47-63 | a block keeps its key line and every other line in order; only one status line becomes two; control keys and keys that are not current are never changed |
| `ReconcileLaws.ChangesAreGrounded` | scripts/aipos-state-reconcile.js:47-63 | every reported change is the edit of a block of the input |
| `ReconcileMeaning.TopLevelIff` | scripts/aipos-state-reconcile.js:27-27 | a line begins an entry exactly when it is a key, a colon and anything; the key is what stands before the first colon |
| `ReconcileMeaning.FieldValueIsWord` | scripts/aipos-state-reconcile.js:56-57 | the value of a field is the word after its label, whatever white space is around it, quoted or not |
| `ReconcileMeaning.OpenStatusIff` | scripts/aipos-state-reconcile.js:26-26 | an entry may be completed exactly from the statuses of the in-flight pattern, read as prefixes and parts of upper-case words |
| `ReconcileMeaning.EditIff` | scripts/aipos-state-reconcile.js:47-63 | an entry is edited exactly when it is a current entry that is no control key, has no merged number yet, and names a merged branch and an open status; at its first status line, with the branch's number |
| `ReconcileMeaning.ReportedIff` | scripts/aipos-state-reconcile.js:47-63 | a change is reported exactly when an entry of the input calls for it |
| `ReconcileLaws.ReconcileGrows` | scripts/aipos-state-reconcile.js:61-62 | the text grows by exactly one line per change |
| `ReconcileLaws.ReconcileIsIdempotent` | scripts/aipos-state-reconcile.js:43-74 | a second run changes nothing and reports nothing |
| `ReconcileLaws.ReconcileWholeText` | scripts/aipos-state-reconcile.js:43-74 | the function from text to text and changes |
| `ReconcileLaws.ReconcileTextIsIdempotent` | scripts/aipos-state-reconcile.js:42-74 | idempotence on text |
| `ReconcileLaws.ParseMerged` | scripts/aipos-state-reconcile.js:31-40 | the table maps each branch with a valid line to its largest valid number, and nothing else |
| `ReconcileLaws.MergedTableIsUnique` | scripts/aipos-state-reconcile.js:31-40 | the table depends only on which lines occur, not on their order or number |
| `IndicatorLoops.RollingStep` | scripts/offline-ohlcv-catalog-screen.js:66-66 | adding the new value and dropping the one that leaves keeps a window sum |
| `IndicatorLoops.SmaOf` | scripts/offline-ohlcv-catalog-screen.js:66-66 | the rolling mean equals the mean of the window at every bar |
| `IndicatorLoops.EmaStep` | scripts/offline-ohlcv-catalog-screen.js:67-67 | the weighted sum satisfies the recursion that the loop runs |
| `IndicatorLoops.EmaOf` | scripts/offline-ohlcv-catalog-screen.js:67-67 | the exponential average equals the decaying weighted sum of all values so far |
| `IndicatorLoops.AtrOf` | scripts/offline-ohlcv-catalog-screen.js:73-73 | the average true range is the mean of the first p true ranges and then Wilder's recursion |
| `IndicatorLoops.PrevHighOf` | scripts/offline-ohlcv-catalog-screen.js:74-74 | the highest high of the p bars before |
| `IndicatorLoops.PrevLowOf` | scripts/offline-ohlcv-catalog-screen.js:75-75 | the lowest low of the p bars before |
| `IndicatorLoops.StochOf` | scripts/offline-ohlcv-catalog-screen.js:76-76 | the close's place between the window's extremes |
| `IndicatorLoops.ObvOf` | scripts/offline-ohlcv-catalog-screen.js:77-77 | the running volume equals the sum of signed volumes |
| `IndicatorLoops.MfiOf` | scripts/offline-ohlcv-catalog-screen.js:79-79 | the money-flow index of the window's flows |
| `IndicatorLoops.VwapOf` | scripts/offline-ohlcv-catalog-screen.js:80-80 | the rolling volume-weighted price equals the quotient of the window's sums |
| `Indicators.NoLookAhead` | scripts/offline-ohlcv-catalog-screen.js:62-80 | the value of an indicator at a bar is the same in any two series that agree up to that bar |
| `Indicators.ExtremesBound` | scripts/offline-ohlcv-catalog-screen.js:74-76 | the extremes of a window bound it and occur in it |
| `IndicatorMeaning.TrueRangeIsShortestHold` | scripts/offline-ohlcv-catalog-screen.js:68-68 | the true range is the length of the shortest interval that holds the bar and the close before it |
| `IndicatorMeaning.MeanMakesUpSum` | scripts/offline-ohlcv-catalog-screen.js:66-66 | a mean, taken as often as it has bars, makes up their sum; it is defined from bar p - 1 on |
| `IndicatorMeaning.EmaMovesToValue` | scripts/offline-ohlcv-catalog-screen.js:67-67 | the exponential average starts at the first value and moves two parts in p + 1 of the way to each new one |
| `IndicatorMeaning.WilderMovesToValue` | scripts/offline-ohlcv-catalog-screen.js:73-73 | Wilder's average starts at the mean of the first p values and moves one part in p of the way to each new one |
| `IndicatorMeaning.ExtremesBefore` | scripts/offline-ohlcv-catalog-screen.js:74-75 | the extremes before a bar bound the p bars before it, and occur there |
| `IndicatorMeaning.StochDividesRange` | scripts/offline-ohlcv-catalog-screen.js:76-76 | the stochastic divides the range of its window as the close does |
| `IndicatorMeaning.VolumeIsSigned` | scripts/offline-ohlcv-catalog-screen.js:77-77 | volume counts for a rise, against a fall, and not at all for an unchanged close |
| `IndicatorMeaning.MfiIsShare` | scripts/offline-ohlcv-catalog-screen.js:79-79 | the money-flow index is the share of the rising flow in percent, and 100 without falling flow |
| `IndicatorMeaning.VwapMakesUpTurnover` | scripts/offline-ohlcv-catalog-screen.js:80-80 | the volume-weighted price times the volume of its window is what was traded in it |
| `IndicatorMeaning.MoveGoesOneWay` | scripts/offline-ohlcv-catalog-screen.js:81-81 | a move counts for the side that moved further, and only if it moved out |
| `IndicatorMeaning.IndexIsPercent` | scripts/offline-ohlcv-catalog-screen.js:81-81 | the directional indices are the smoothed moves in percent of the smoothed ranges |
| `IndicatorMeaning.AdxMovesToSpread` | scripts/offline-ohlcv-catalog-screen.js:81-81 | the average spread starts at bar p and moves one part in p of the way to each new spread |
| `IndicatorMeaning.BandStartsOver` | scripts/offline-ohlcv-catalog-screen.js:82-82 | a band starts over a multiple of the average true range away from the middle of its bar |
| `Indicators.StochBounds` | scripts/offline-ohlcv-catalog-screen.js:76-76 | the stochastic stays within [0, 100] on well-formed bars |
| `Indicators.MfiBounds` | scripts/offline-ohlcv-catalog-screen.js:79-79 | the money-flow index is defined and within [0, 100] on well-formed bars |
| `Trend.AdxOf` | scripts/offline-ohlcv-catalog-screen.js:81-81 | the running sums, indices and their average equal their definitions per bar |
| `Trend.SmoothedIsWeighted` | scripts/offline-ohlcv-catalog-screen.js:81-81 | Wilder's running sum is a decaying weighted sum of the values |
| `Trend.AdxBounds` | scripts/offline-ohlcv-catalog-screen.js:81-81 | both directional indices and the average spread stay within [0, 100] on well-formed bars |
| `Trend.SupertrendOf` | scripts/offline-ohlcv-catalog-screen.js:82-82 | the direction column equals the direction of the trailing bands at every bar |
| `Trend.UpperBandIsRunningMinimum` | scripts/offline-ohlcv-catalog-screen.js:82-82 | over any stretch of bars whose closes do not exceed the upper band, the band is the least of where it began and of all places it could have started over at |
| `Trend.LowerBandIsRunningMaximum` | scripts/offline-ohlcv-catalog-screen.js:82-82 | the mirror image for the lower band |
| `Trend.TrendIsLastBreak` | scripts/offline-ohlcv-catalog-screen.js:82-82 | the trend at a bar is what the last close beyond a band said, and up before there was one |
| `Trend.TrendLooksBack` | scripts/offline-ohlcv-catalog-screen.js:81-82 | both trend indicators read no later bar |
| `IndicatorMemo.KeysDoNotCollide` | scripts/offline-ohlcv-catalog-screen.js:64-82 | no two indicators, trend records, periods or multipliers share a memo key |
| `IndicatorMemo.IndicatorCache.Get` | scripts/offline-ohlcv-catalog-screen.js:64-64 | the memo returns what a fresh computation returns, for all fourteen kinds of entry, whatever was asked before, and never changes an entry |
| `IndicatorMemo.IndicatorCache.Compute` | scripts/offline-ohlcv-catalog-screen.js:69-83 | a computation that asks the memo for other columns, the two trend records included, gives the direct definition |
| `IndicatorMemo.ComputeFromBars` | scripts/offline-ohlcv-catalog-screen.js:69-83 | a computation from bars alone gives the direct definition |
| `TradeLoop.Run` | scripts/offline-ohlcv-catalog-screen.js:108-116 | the trade loop prices exactly the spans of the walk, which does not know the costs |
| `TradeLoop.PeakIsHighestClose` | scripts/offline-ohlcv-catalog-screen.js:113-113 | the peak handed to an exit rule is the highest close since entry |
| `TradeMeaning.SpansAreTheTrades` | scripts/offline-ohlcv-catalog-screen.js:108-116 | for every rule, series and range there is exactly one list of trades in which each is entered at the first bar from 201 and after the one before where the rule enters, and ends at the first later bar where the rule, told the highest close since entry, leaves, or at the last bar; the run makes it |
| `TradeMeaning.ReturnBalances` | scripts/offline-ohlcv-catalog-screen.js:113-114 | what is spent at entry, grown by the return, is what is received at exit, costs counted on both sides |
| `TradeMeaning.FreeTradeReturnsThePrice` | scripts/offline-ohlcv-catalog-screen.js:113-114 | without costs a trade returns what the price does |
| `TradeMeaning.CompoundOfConcat` | scripts/offline-ohlcv-catalog-screen.js:117-117 | one run after another multiplies the growth, and one return grows one by it |
| `TradeMeaning.AverageMakesUpSum` | scripts/offline-ohlcv-catalog-screen.js:118-118 | the mean, taken as often as there are values, makes up their sum; that of nothing is zero |
| `TradeLaws.TradesDoNotOverlap` | scripts/offline-ohlcv-catalog-screen.js:108-116 | each trade ends before the next begins |
| `TradeLaws.LaterBarsOnlyAddTrades` | scripts/offline-ohlcv-catalog-screen.js:108-116 | for a causal rule, the trades closed by signal up to one end are a prefix of those of any later run over any series that continues the same bars |
| `TradeLaws.RunIgnoresLaterBars` | scripts/offline-ohlcv-catalog-screen.js:108-116 | neither trades nor returns of a run depend on bars from its end on |
| `TradeLaws.WindowsSpanDiscovery` | scripts/offline-ohlcv-catalog-screen.js:138-140 | the windows begin within six bars after the warm-up and end where the holdout begins |
| `TradeLaws.WindowsTile` | scripts/offline-ohlcv-catalog-screen.js:138-140 | a bar lies in exactly one window if it lies in the discovery range, else in none |
| `TradeLaws.DearerTradeReturnsNoMore` | scripts/offline-ohlcv-catalog-screen.js:113-115 | a trade at higher fee and slippage returns no more, and never loses everything |
| `TradeLaws.DearerRunReturnsNoMore` | scripts/offline-ohlcv-catalog-screen.js:108-116 | a run at higher costs makes the same trades, none returning more |
| `TradeLaws.CompoundMonotone` | scripts/offline-ohlcv-catalog-screen.js:117-117 | the compounded result is no larger |
| `TradeLaws.AverageMonotone` | scripts/offline-ohlcv-catalog-screen.js:118-118 | the mean is no larger |
| `Screen.StressIsSound` | scripts/offline-ohlcv-catalog-screen.js:147-157 | every window that wins under stress wins at base costs, so the count is no larger; a positive stressed holdout mean forces a positive base mean over as many trades |
| `Screen.BaseTestsAreImplied` | scripts/offline-ohlcv-catalog-screen.js:151-157 | the base window count and the base holdout mean decide nothing: discovery and holdout are equivalent to their other conditions |
| `Screen.DiscoveryIgnoresHoldout` | scripts/offline-ohlcv-catalog-screen.js:138-151 | for a causal rule discovery decides the same whatever the holdout bars are |
| `ScreenMeaning.DiscoveryMeans` | scripts/offline-ohlcv-catalog-screen.js:138-151 | a rule is discovered exactly when it wins at least four of the six windows at costs of five basis points and of ten, and its windows of rising prices and the others both sum up to a gain |
| `ScreenMeaning.WindowsFromTheEnd` | scripts/offline-ohlcv-catalog-screen.js:138-140 | the six windows are equally long, follow on from each other up to the holdout, and are as long as fits in after the first 201 bars |
| `ScreenMeaning.WindowWins` | scripts/offline-ohlcv-catalog-screen.js:147-149 | a window wins exactly when the markets' compounded gains sum up to more than nothing |
| `ScreenMeaning.WindowRises` | scripts/offline-ohlcv-catalog-screen.js:141-141 | prices rose over a window exactly when the markets' changes from its first to its last close sum up to more than nothing |
| `CausalRules.AtrBreakoutIsCausal` | scripts/offline-ohlcv-catalog-screen.js:90-90 | the breakout rule with a chandelier exit is causal |
| `CausalRules.DonchianHlIsCausal` | scripts/offline-ohlcv-catalog-screen.js:92-92 | the Donchian rule is causal for every period of at least two |
| `CausalRules.InsideBarBreakoutIsCausal` | scripts/offline-ohlcv-catalog-screen.js:99-99 | the inside-bar rule, whose exit reads the bar before entry, is causal |
| `RuleMeaning.DonchianHlMeans` | scripts/offline-ohlcv-catalog-screen.js:92-92 | the Donchian rule enters above every high of the last p bars and exits below every low of the last half of them |
| `RuleMeaning.AtrBreakoutMeans` | scripts/offline-ohlcv-catalog-screen.js:90-90 | the breakout rule enters on a rise of more than k ranges and exits more than three ranges under the peak |
| `ForbiddenWalk.Path.RejectForbidden` | scripts/closed-learning-research-worker.js:9-18 | the walk with its shared set terminates on every finite graph, decides as the specification does, and leaves the set as it found it when it accepts |
| `ForbiddenWalk.AcceptedPathsEndWell` | scripts/closed-learning-research-worker.js:9-18 | once accepted, no path from the value ends in a repeated object or at a forbidden key |
| `ForbiddenWalk.RefusedPath` | scripts/closed-learning-research-worker.js:9-18 | a refusal has a path that shows why |
| `ForbiddenWalk.AcceptsExactlyHarmless` | scripts/closed-learning-research-worker.js:9-18 | a request is accepted exactly when no cycle and no forbidden key is reachable from it |
| `ForbiddenWalk.Guard` | scripts/closed-learning-research-worker.js:20-21 | so the check at the head of request validation accepts exactly the harmless requests |
| `ForbiddenWalk.SharingIsAccepted` | scripts/closed-learning-research-worker.js:11-17 | an object shared below another is no cycle and is accepted |
| `Closure.ResolveSpec` | scripts/report-cloud-reachability.js:21-26 | a relative specifier means the first of its four candidates that is a file, and nothing when none is; a package name means nothing |
| `Closure.SpecMeans` | scripts/report-cloud-reachability.js:21-26 | which file a specifier means, said by the endings tried and the files that are not there |
| `Closure.Targets` | scripts/report-cloud-reachability.js:35-38 | scanning a file yields exactly the cloud files it imports |
| `Closure.Close` | scripts/report-cloud-reachability.js:28-42 | the worklist visits exactly the files that a chain of imports reaches from an existing start file |
| `Closure.ClosureIsLeast` | scripts/report-cloud-reachability.js:28-42 | that is the least set holding the existing start files and closed under imports |
| `Closure.ClosureIsMonotone` | scripts/report-cloud-reachability.js:28-42 | more starts reach no less; their order and repetition do not matter |
| `Closure.HostIsInProduct` | scripts/report-cloud-reachability.js:58-60 | host modules are reached by the product entries too |
| `Closure.Classify` | scripts/report-cloud-reachability.js:54-66 | each module gets the one category that the two closures and its name decide |
| `Closure.CountsAddUp` | scripts/report-cloud-reachability.js:66-71 | the four counts add up to the number of modules |
| `AutopilotRuntime.Runtime.Persist` | scripts/autopilot-runtime.js:145-147 | a write replaces the whole file or leaves it |
| `AutopilotRuntime.Runtime.Load` | scripts/autopilot-runtime.js:123-143 | loading gives the fresh, restored or corrupt state the file calls for and writes it |
| `AutopilotRuntime.Runtime.Start` | scripts/autopilot-runtime.js:210-222 | a running object is left alone; otherwise it loads, and unless the file was corrupt or could not be written it runs and completes a first cycle |
| `AutopilotRuntime.Runtime.RunCycle` | scripts/autopilot-runtime.js:172-208 | the attempt loop equals the machine's steps, for every reply and every fate of every write |
| `AutopilotRuntime.Runtime.Cycle` | scripts/autopilot-runtime.js:166-170 | a call in flight joins, any other runs one cycle and clears the handle |
| `AutopilotRuntime.Runtime.Stop` | scripts/autopilot-runtime.js:224-233 | stopping writes twice, the second time only after the first succeeded |
| `AutopilotLaws.ValidIsFormed` | scripts/autopilot-runtime.js:75-95 | a state is valid exactly when its shape is right and its five counters are safe |
| `AutopilotLaws.StepKeeps` | scripts/autopilot-runtime.js:123-233 | every orderly step keeps the invariant between memory, file, phase and counters |
| `AutopilotLaws.EveryCrashIsRestored` | scripts/autopilot-runtime.js:123-208 | wherever a run is cut off, the file loads as restored with every counter as written, failures equal blocks, retries are within iterations times the attempts beyond the first, and outcomes exceed iterations by no more than the dispatches whose write failed |
| `AutopilotLaws.DiskForgetsNothing` | scripts/autopilot-runtime.js:123-233 | over any run, crashes included, no counter on disk ever decreases |
| `AutopilotLaws.OneCycleAtATime` | scripts/autopilot-runtime.js:166-170 | from any file and over every sequence of calls, attempts, clearings, stops, starts, failing writes and crashes, at most one body runs; the handle is set exactly while a body runs or its clearing is pending, and a call that finds it set changes nothing |
| `AutopilotLaws.CycleIsARun` | scripts/autopilot-runtime.js:166-208 | what the object does in a cycle is a run of the machine, from the call to the clearing of the handle |
| `AutopilotMeaning.JudgedAs` | scripts/autopilot-runtime.js:177-196 | which ticks count and what is remembered of them, said by the tick's own fields |
| `AutopilotMeaning.TrimIs` | scripts/autopilot-runtime.js:25-27 | trimming drops white space on both sides and leaves text that neither begins nor ends with it |
| `AutopilotMeaning.FirstCountingTickDecides` | scripts/autopilot-runtime.js:172-208 | with writes that succeed, the first tick that counts decides a cycle and those before it are retries; when none counts, the cycle counts one failure and one block and remembers the last message |
| `AutopilotLaws.OneOutcomeIffUnexposed` | scripts/autopilot-runtime.js:177-202 | a cycle counts at most one outcome for every sequence of replies exactly when no reachable success can lose its write and go on; otherwise replies exist that count two |
| `AutopilotLaws.BlockedRestoresIffNamed` | scripts/autopilot-runtime.js:204-207 | a cycle that ends blocked loads as restored exactly when its error message is empty or not mere white space |
| `AutopilotLaws.StopBeforeStartForgets` | scripts/autopilot-runtime.js:224-233 | a stop before the first start overwrites the counters with zeros |
| `AutopilotLaws.CorruptFileBlocksOneStart` | scripts/autopilot-runtime.js:128-139 | a corrupt file blocks one start only; the next one restores |
| `History.TakePage` | scripts/fetch-futures-history.js:42-50 | the row loop takes rows up to the first that does not fill its slot, and reports that row's error |
| `History.FetchKlines` | scripts/fetch-futures-history.js:37-56 | the reader returns what the pages make up; success is one valid row per slot from start to end, so the final count test never fails |
| `History.KlinesAreGrid` | scripts/fetch-futures-history.js:37-56 | whatever page sizes the server chooses, accepted rows are the exact grid |
| `History.GridIsWhole` | scripts/fetch-futures-history.js:37-56 | the exact grid is 8292 rows, one for each four hours from the start |
| `History.ValidMeans` | scripts/fetch-futures-history.js:43-46 | values are valid exactly when prices are positive, low and high bound the other two, and the volume is not negative |
| `History.RowErrorTells` | scripts/fetch-futures-history.js:43-47 | which of the three complaints a row draws |
| `History.HistoryIsRead` | scripts/fetch-futures-history.js:37-56 | from a server that answers from one full history the reader returns that history |
| `History.FetchFunding` | scripts/fetch-futures-history.js:58-74 | the reader returns the server's rows in order, or the error of the page, of the row, or of too few rows |
| `History.FundingsAreLedger` | scripts/fetch-futures-history.js:58-74 | accepted rows are of the symbol, with stamps strictly increasing within the range |
| `History.LedgerIsRead` | scripts/fetch-futures-history.js:58-74 | from a server that answers from one ledger, at least one row while any is left, no row is missed |
| `ResearchCandles.AnchorIsLastBoundary` | scripts/research-real-market-run.js:501-503 | the anchor is the last interval boundary that has passed |
| `ResearchCandles.CheckPage` | scripts/research-real-market-run.js:516-521 | a page passes exactly when it is one candle per interval of the market, ending at the cursor |
| `ResearchCandles.ContiguousIff` | scripts/research-real-market-run.js:516-521 | a page passes exactly when its candles are of the market, each opens when the one before closes, and the last closes at the cursor |
| `ResearchCandles.CandlesAreContiguous` | scripts/research-real-market-run.js:497-525 | accepted candles are as many as asked for, one per interval, ending at the anchor |
| `ResearchCandles.HistoryIsPaged` | scripts/research-real-market-run.js:505-525 | from a source that serves one history the pager returns exactly that history |
| `ResearchCandles.CollectPages` | scripts/research-real-market-run.js:504-525 | the paging loop equals its recursion, asking for as few pages as hold the count, each ending where the last began |
| `ResearchCandles.FetchResearchCandles` | scripts/research-real-market-run.js:497-527 | success is exactly count candles ending at the last completed interval; every failure is the specified one |

## Left out

- Observation.Observer.CollectSnapshot: what the order and fill checks of a snapshot report is an input, since they read other lists than the event window; account, stage and sample evidence and the timeline are not modelled. The signature hash is taken to be injective; the canonical text under it is, also with undefined fields (`CanonicalDecidesSame`), so equal signatures are equal events. Ids sort by a comparison that is a parameter, as `localeCompare` is.
- ObservationCompleteness.PassIsComplete: a window below the cap that follows another one below the cap is taken to show the whole log; a source that keeps serving short windows of a longer log is not modelled.
- CanonicalInjective.ValueRoundTrip: a number is its printed literal; how floating-point numbers print is not modelled.
- Keys of an object that a JavaScript engine orders as integers, and properties such as `__proto__`, have no special role: an object is a list of distinct keys and values.
- Options of the supervisor other than the two backoff bounds are integers: a fraction, an infinity or a non-number fails the same checks as an unsafe integer, except for the stable window, which is not checked and is taken to be an integer.
- `Supervisor`: one exit event per launched child; the child's environment, its output beyond the lease-conflict marker and the `error` event (which only logs) are not modelled.
- `Retention`: sidecar verification is a set of verified names; of input and output errors only a snapshot that is not written is modelled, and a partly written one is a file that fails its check. Years run from 0 to 9999.
- `RateLimit`: text matching of provider messages is by the known codes; a header is one of number, timestamp or neither, and a date string is its parsed moment. Arithmetic is over integers and reals, not floating point.
- `Dispatch`: identity-token failures and network failures are reply kinds; request bodies and telemetry fields other than those the decisions use are not modelled.
- `ProposalLoop`: git, validation and publication are inputs of each turn; a throw while resetting the workspace, the causal-dispatch receipt fields and the text of feedback beyond its code are not modelled.
- `Reconcile`: the regular expressions for keys, labels and statuses are predicates on characters written out.
- Indicators and trades: `real` arithmetic, so rounding, infinities and NaN propagation other than "undefined" are not modelled. Division by a zero sum gives an undefined value.
- `Screen.BaseTestsAreImplied`: windows of at least one bar and a discovery range of at least the warm-up are required; with less data the script itself reads outside the series. The p-value is a parameter.
- `CausalRules`: three rules of the catalogue stand for the others; the theorems take any causal rule.
- `Trend`: the multiplier of a supertrend is a natural number, as in every rule of the catalogue.
- `ForbiddenWalk`: the key pattern is a predicate on keys; the later field checks of request validation are single branches and are not modelled. What the shared set holds after a throw is not stated.
- `Closure`: a path is a file or absent, so reading a directory is not modelled; the pattern that finds specifiers is an input, as is path resolution up to the four candidates.
- `AutopilotRuntime`: a state read from disk has fields of the right JSON types or counts as unreadable. A stop or a start falls between two attempts of a cycle, not between the reply of an attempt and its write. The timer that schedules cycles, the network tick and a start that overlaps another start are not modelled.
- `AutopilotLaws.EveryCrashIsRestored`: the clock stays within the safe integers, error messages are not mere space, a stop comes after a start (during a cycle or not), and a run has fewer than 2^51 steps; where these matter, the lemmas beside it say what happens without them.
- `AutopilotLaws.StopBeforeStartForgets`: stated for a stop of a new process whose write succeeds.
- `History`: retries of a failed request, delays between pages and the CSV text of a row are not modelled; a failed request is a reply.
- `ResearchCandles`: the adapter from raw to completed candles and the hash of raw pages are not part of this model; a page reply carries the adapter's result.
- Everything else in `scripts/`: command-line wrappers, reports, statistics over floating-point numbers, and checks that are one branch each.
