# HealthOps decision logic, verified

HealthOps runs health checks, raises alerts, opens and closes incidents and prepares evidence for
them. This project models the parts of its Go backend that decide something over time, and proves
what those parts are for: about every input, every run, or every interleaving.

| file | models |
|---|---|
| `Civil.dfy` | instants, 64-bit durations, and the proleptic Gregorian calendar behind `time.Date` (month lengths and leap years as in section 5.7 and Appendix C of RFC 3339) |
| `Maintenance.dfy` | recurring maintenance windows and their store |
| `Scheduler.dfy` | the stop protocol of the check scheduler, as threads that interleave step by step |
| `SchedulerStop.dfy` | what a `Stop` call guarantees, and how it ends while calls keep arriving |
| `Runner.dfy` | the worker pool of `RunOnce` over its channels, and the `running` flag |
| `AlertMessages.dfy`, `Text.dfy` | the text of an alert and the parser that reads it back |
| `AlertRules.dfy` | alert conditions, notification cooldown, and evaluation for incidents |
| `Incidents.dfy` | the incident repository and manager, with whole calls as steps and with `Find` and `Update` interleaved |
| `Pipeline.dfy` | from check results to incidents: streaks, thresholds, maintenance |
| `ConcurrentPipeline.dfy` | the same with any number of batches, and alerts from elsewhere, at once, every critical section a step of its own |
| `PipelineReports.dfy` | what reaches the incident manager, by the rules and results it comes from, and what an incident opened by it says |
| `ConcurrentIncidents.dfy`, `ConcurrentThresholds.dfy` | what holds in every concurrent execution |
| `ConcurrentAlone.dfy` | that a batch running alone there does exactly what the batch of `Pipeline.dfy` does |
| `MySQLSamples.dfy`, `MySQLRules.dfy` | counter deltas of MySQL samples, and the rule engine with hysteresis |
| `RateLimiter.dfy` | the per-IP limiter and its background sweep |
| `Analytics.dfy` | percentiles and response-time buckets, over exact reals |
| `AIQueue.dfy` | the AI analysis queue and the workers that drain it |
| `Evidence.dfy` | evidence collection, the cap, and the ledger |
| `Sequences.dfy`, `Options.dfy` | shared helpers |

An instant is an integer: nanoseconds since the zero value of `time.Time`. Code that updates objects
is a class whose methods are proved equal to a specification function (or to a relation, where Go
leaves something open: map iteration, the order of equal timestamps after `sort.Slice`); the laws are
then proved about that specification. Concurrent code is a state machine whose steps interleave
arbitrarily. Clocks, check executions, provider answers and generated IDs are parameters.

Where the code does less than its intention, the code is modelled, a failing input is given, and the
exact condition is proved:

* A recurring window that ends after it starts is active exactly in its occurrences, at every instant,
  if and only if its end is not the zero instant and none of its occurrences starts there, which the
  code reads as not set (`FollowsScheduleIff`); `ZeroOccurrenceMissed` is a failing window.
* The limiter's sweep compares with `2*window` in 64 bits. At every rate, sweeps are invisible in all
  runs if and only if the window is below 2^62 ns (`SweepsInvisibleIffWindowFits`); for every longer
  window `OverflowingWindowShows` gives a run in which a sweep lets a request through.
* For positive windows, an interval of one window holds at most `2*rate` allowed requests, in all runs,
  if and only if the rate is at least one and the window below 2^62 ns (`TwiceRateIff`). A lower rate
  admits one request all the same (`OneRequestTooMany`), the lowest of all wraps to the largest
  allowance (`CapIs`), and with a longer window a sweep after each request admits any number of them
  (`TooManyRounds`).
* An alert reads back exactly if and only if no field contains the separator (`RoundTripIffPipeFree`).
* Two notifications are `CooldownMinutes` apart in all runs of calls if and only if `CooldownMinutes` is
  at most 153,722,867 (`SpacedIffMinutesFit`): above, the product wraps in 64 bits, and
  `EarlyRunSends` gives a run of two calls that come too close.
* Two alerts for one check can leave two incidents open when their look-ups both come before their
  creations (`InterleavedAlertsCanDuplicate`). In every interleaved run each check keeps at most one
  open incident if and only if no step creates one, under a free ID, for a check that got one since
  the call looked (`OneOpenIffNeverLate`); and no such step ever happens while no check has two
  ProcessAlert calls in flight (`OneOpenWhenAlertsTakeTurns`).
* That a `Stop` call has returned guarantees that no check is executing if and only if it is the call
  that found `running` set (`ReturnedStopQuietIffItCleared`); `SecondStopReturnsEarly` is a run in
  which another one returns while a check is executing.
* Every maintenance window, one-off or recurring, is active exactly when its schedule says so, at every
  instant, if and only if it stands for no time at all or avoids the zero instant, which the code reads
  as not set (`ActiveIffPromised`).

## Model

| member | source | states |
|---|---|---|
| Civil.NextMonth | backend/internal/monitoring/maintenance.go:120-128 | months follow one another without gap or overlap across December and leap years, each 28 to 31 days long |
| Civil.DateRoundTrip | backend/internal/monitoring/maintenance.go:62-116 | the civil date read off any day leads back to that day |
| Civil.DayRoundTrip | backend/internal/monitoring/maintenance.go:62-116 | every valid civil date is the date of its own day, so dates and days are in bijection |
| Civil.AddDaysIsShift | backend/internal/monitoring/maintenance.go:62-116 | in a fixed-offset zone, adding days to the date, however far the day of the month leaves its range, moves the instant by that many days |
| Civil.LeapDaysCounted | backend/internal/monitoring/maintenance.go:62-116 | the days before a year are 365 for each year and one for every fourth but three centuries in four (the source leaves this to `time.Date`) |
| Civil.MonthLengths | backend/internal/monitoring/maintenance.go:120-128 | the lengths of the twelve months in common and leap years |
| Civil.UnixEpoch | backend/internal/monitoring/incident_manager.go:208-210 | 1970-01-01 is a Thursday, 62,135,596,800 seconds after the zero time, from which incident IDs count |
| Maintenance.LastDayOfMonth | backend/internal/monitoring/maintenance.go:120-128 | day 0 of the next month is the last day of this one, December included |
| Maintenance.MonthlyOccurrenceDate | backend/internal/monitoring/maintenance.go:120-128 | a monthly start lies in the requested month, on day min(start day, last day), at the start's time of day |
| Maintenance.CurrentOccurrenceIsLatest | backend/internal/monitoring/maintenance.go:62-116 | for each rule and every now from the start on, the occurrence returned is some k-th one, k >= 0, and the latest that starts at or before now |
| Maintenance.ActiveIffInSomeOccurrence | backend/internal/monitoring/maintenance.go:39-58 | for every recurring window and instant: active if and only if some occurrence contains now and none of the three instants involved is the zero instant; also for occurrences longer than the period |
| Maintenance.FollowsScheduleIff | backend/internal/monitoring/maintenance.go:39-116 | a recurring window is active exactly in its occurrences at every instant if and only if its end is set and no occurrence starts at the zero instant |
| Maintenance.ActiveIffScheduled | backend/internal/monitoring/maintenance.go:39-58 | windows that start after the zero instant are active exactly in their occurrences |
| Maintenance.ZeroOccurrenceMissed | backend/internal/monitoring/maintenance.go:39-58 | a concrete window that misses the occurrence at the zero instant |
| Maintenance.ActiveIffPromised | backend/internal/monitoring/maintenance.go:39-58 | for every window, one-off ones included: active at exactly the instants its schedule names if and only if it names none (disabled, empty, or of an unrecognised rule) or avoids the zero instant |
| Maintenance.SuppressedAsPromised | backend/internal/monitoring/maintenance.go:131-165 | and then a check is suppressed exactly when a window that names this instant names nothing, the check, one of its tags or its server |
| Maintenance.CoversCheck | backend/internal/monitoring/maintenance.go:131-165 | the scope: everything when nothing is listed, else by check ID, by a shared tag or by server |
| Maintenance.MaintenanceStore.IsCheckInMaintenance | backend/internal/monitoring/maintenance.go:292-303 | true exactly when some active window covers the check |
| Maintenance.MaintenanceStore.PruneExpired | backend/internal/monitoring/maintenance.go:306-327 | exactly the one-off windows that ended before the cutoff go, and their number is returned |
| Maintenance.PruningIsInvisible | backend/internal/monitoring/maintenance.go:292-327 | pruning changes no maintenance answer given from the cutoff on |
| SchedulerStop.NothingRunsAfterStop | backend/internal/monitoring/scheduler.go:78-100 | in every interleaving, from the moment the Stop call that cleared running returns, no check body executes and none ever starts |
| SchedulerStop.AddNeverRacesWait | backend/internal/monitoring/scheduler.go:206-217 | no thread is about to add to the wait group while a Stop call waits for it |
| SchedulerStop.NoDeadlock | backend/internal/monitoring/scheduler.go:78-100 | a reachable state in which nobody can move is one in which every call has returned |
| SchedulerStop.StepsAreBounded | backend/internal/monitoring/scheduler.go:206-284 | while no call arrives, every schedule is finite, bounded by the retries left |
| SchedulerStop.PresentStepsAreBounded | backend/internal/monitoring/scheduler.go:206-284 | however many calls arrive, those present at a moment take a bounded number of steps from then on |
| SchedulerStop.WaitingStopIsNotOvertaken | backend/internal/monitoring/scheduler.go:95-99 | the bodies a waiting Stop waits for are among those counted when it began to wait: later arrivals never join |
| SchedulerStop.WaitEndsWithTheBodies | backend/internal/monitoring/scheduler.go:95-99 | a waiting Stop can go on exactly when no body is left |
| SchedulerStop.SecondStopReturnsEarly | backend/internal/monitoring/scheduler.go:78-84 | a reachable state in which a second Stop has returned while a check is executing and the first Stop still waits |
| SchedulerStop.ReturnedStopQuietIffItCleared | backend/internal/monitoring/scheduler.go:78-100 | a returned Stop guarantees that no body is executing if and only if it found running set |
| SchedulerStop.NoNewExecutionAfterCancel | backend/internal/monitoring/scheduler.go:206-225 | a call that has not passed its second look at the context when it is cancelled never executes its check |
| SchedulerStop.AttemptsAreBounded | backend/internal/monitoring/scheduler.go:232-276 | in every run a call executes its check at most once more than its retry count |
| SchedulerStop.GivesUpAfterLastAttempt | backend/internal/monitoring/scheduler.go:232-284 | it comes to set the cooldown only after exactly that many executions |
| SchedulerStop.EveryAttemptCanBeMade | backend/internal/monitoring/scheduler.go:206-250 | and for every retry count each of them is reached in some run |
| Runner.EnabledChecks | backend/internal/monitoring/runner.go:206-214 | the enabled checks in order |
| Runner.NeverPanics | backend/internal/monitoring/runner.go:77-114 | no schedule sends on a closed channel, closes one twice or drops the wait group below zero |
| Runner.CollectsEachCheckOnce | backend/internal/monitoring/runner.go:77-117 | when the collector returns, the results carry the same multiset of check IDs as the checks, for any configured worker count |
| Runner.RunsAreBounded | backend/internal/monitoring/runner.go:77-117 | every schedule takes at most a number of steps fixed at the start |
| Runner.RunsEndCollected | backend/internal/monitoring/runner.go:77-117 | where no step is possible the collector has returned: no deadlock |
| Runner.OneRunAtATime | backend/internal/monitoring/runner.go:58-71 | two overlapping RunOnce calls are never both in the body, and `running` is set exactly while one is |
| Runner.SkippedIffBusy | backend/internal/monitoring/runner.go:58-71 | a call that has the lock is skipped if and only if another call is in the body at that moment, and enters it otherwise |
| Runner.FlagNeverStuck | backend/internal/monitoring/runner.go:58-71 | while a call is unfinished some call can go on |
| AlertMessages.ParseAlertMessageParts | backend/internal/monitoring/status_page_api.go:722-732 | the map it builds is that of the pieces between pipes, later ones winning, pieces without a colon skipped |
| AlertMessages.RoundTripIffPipeFree | backend/internal/monitoring/alert_rules.go:306-326 | parsing a built message gives exactly the printed fields, trimmed, if and only if no field contains the separator |
| AlertMessages.RoundTripExact | backend/internal/monitoring/status_page_api.go:722-732 | on trimmed fields the values and the set of keys come back unchanged, colons inside values included |
| AlertMessages.DecimalIsNumeral | backend/internal/monitoring/alert_rules.go:306-326 | the printed duration reads back as its number, without leading zeros |
| AlertRules.EvaluateConditions | backend/internal/monitoring/alert_rules.go:165-176 | true exactly when there is a condition and all hold |
| AlertRules.CheckMatchesRule | backend/internal/monitoring/alert_rules.go:151-162 | true exactly when the rule lists no check or lists this one |
| AlertRules.MatchMeans | backend/internal/monitoring/alert_rules.go:101-176 | a rule matches if and only if it is enabled, names no check or this one, has conditions, and every condition asks what the result is: strings and flags equal or not, numbers related as the operator says, a duration against the whole part |
| AlertRules.AlertSays | backend/internal/monitoring/alert_rules.go:289-326 | the alert carries the rule's ID, name and severity and the result's check, and its text reads back as its fields when none contains the separator |
| AlertRules.VisitsInOrder | backend/internal/monitoring/alert_rules.go:101-148 | results come in order, and for each result the rules in order |
| AlertRules.AlertRuleEngine.Evaluate | backend/internal/monitoring/alert_rules.go:101-148 | alerts and remembered times after a whole call, for both kinds of evaluation |
| AlertRules.RememberedIsLast | backend/internal/monitoring/alert_rules.go:118-140 | what is remembered under a key is the time of its last notification, in every run |
| AlertRules.SuppressedIffRecent | backend/internal/monitoring/alert_rules.go:118-128 | a matching result is suppressed if and only if a notification under its key was sent less than the cooldown before |
| AlertRules.NotificationsAreSpaced | backend/internal/monitoring/alert_rules.go:89-140 | two notifications of a rule for a check are at least the cooldown apart |
| AlertRules.CooldownInMinutesIff | backend/internal/monitoring/alert_rules.go:118-128 | the engine's cooldown is the configured number of minutes if and only if that many nanoseconds fit 64 bits |
| AlertRules.CallsAreVisits | backend/internal/monitoring/alert_rules.go:89-148 | a run of calls is the run of their result-rule pairs: each call starts from what the one before remembers |
| AlertRules.AlertsJoin | backend/internal/monitoring/alert_rules.go:101-148 | the alerts of two stretches of a run are those of the first and then those of the second from where the first ended |
| AlertRules.RememberedIsLastSent | backend/internal/monitoring/alert_rules.go:89-148 | in every run of calls of both kinds, lastTriggered holds the time of the last notification returned for a key, and nothing else |
| AlertRules.SentAreSpaced | backend/internal/monitoring/alert_rules.go:89-148 | in every run of calls, two notifications returned for a rule and check are the engine's cooldown apart |
| AlertRules.SpacedIffMinutesFit | backend/internal/monitoring/alert_rules.go:118-128 | they are CooldownMinutes apart in all runs of calls if and only if CooldownMinutes is at most 153,722,867 |
| AlertRules.EarlyRunSends | backend/internal/monitoring/alert_rules.go:118-140 | the run that fails for larger values: two calls, the second as early as the wrapped cooldown allows, both notify |
| AlertRules.IncidentCallsAreInvisible | backend/internal/monitoring/alert_rules.go:97-99 | dropping all incident evaluations from a run of calls changes neither what is remembered nor what is sent |
| Text.KeysAreInjective | backend/internal/monitoring/mysql_rules.go:44-46 | keys with colon-free rule codes are equal exactly for the same rule and check; the alert engine's cooldown keys have the same form |
| AlertRules.SuppressedBySameRule | backend/internal/monitoring/alert_rules.go:89-140 | with distinct colon-free IDs a suppressed result had the very same rule fire for the very same check within the cooldown |
| AlertRules.IncidentVisitsAreInvisible | backend/internal/monitoring/alert_rules.go:97-99 | interleaved incident evaluations change neither the remembered times nor what later notifications are sent |
| AlertRules.IncidentCallsIgnoreCooldown | backend/internal/monitoring/alert_rules.go:97-99 | an incident evaluation neither reads nor changes the remembered times |
| AlertRules.IncidentAlertsAreMatches | backend/internal/monitoring/alert_rules.go:97-148 | it raises an alert for exactly the pairs of a result and a rule that matches it |
| AlertRules.EvaluateWithinIncidents | backend/internal/monitoring/alert_rules.go:89-99 | on the same results, the notifications are a subsequence of the incident alerts, whatever each has seen before |
| Incidents.MemoryIncidentRepository.CreateIncident | backend/internal/monitoring/incident_repository.go:23-33 | creation succeeds exactly on a free ID, and a colliding one leaves the repository unchanged |
| Incidents.MemoryIncidentRepository.UpdateIncident | backend/internal/monitoring/incident_repository.go:36-53 | the mutated copy is written back, or nothing is when the ID is missing or the mutator refuses |
| Incidents.MemoryIncidentRepository.FindOpenIncident | backend/internal/monitoring/incident_repository.go:92-108 | some unresolved incident of the check, and none only when there is none |
| Incidents.MemoryIncidentRepository.PruneBefore | backend/internal/monitoring/incident_repository.go:124-134 | exactly the resolved incidents last updated before the cutoff go |
| Incidents.IncidentManager.ProcessAlert | backend/internal/monitoring/incident_manager.go:44-111 | updates the check's open incident or creates one; the creation callback gets exactly the incident that was created, and is called only then |
| Incidents.IncidentManager.AcknowledgeIncident | backend/internal/monitoring/incident_manager.go:114-129 | succeeds exactly on an unresolved incident |
| Incidents.IncidentManager.ResolveIncident | backend/internal/monitoring/incident_manager.go:132-160 | succeeds exactly on an unresolved incident, and then the resolution callback gets it as stored |
| Incidents.IncidentManager.AutoResolveOnRecovery | backend/internal/monitoring/incident_manager.go:173-185 | resolves the check's open incident, if any, as one step |
| Incidents.StepKeepsOneOpen | backend/internal/monitoring/incident_manager.go:44-89 | every call keeps at most one unresolved incident per check |
| Incidents.OneOpenPerCheck | backend/internal/monitoring/incident_manager.go:44-89 | so does every run of calls and prunes from the empty repository |
| Incidents.StepIsDeterministic | backend/internal/monitoring/incident_repository.go:92-108 | hence the map's iteration order never shows: a call has one possible outcome |
| Incidents.SameSecondSameID | backend/internal/monitoring/incident_manager.go:208-210 | two incident IDs of a check are equal if and only if their times lie in the same second |
| Incidents.UnixCountsSeconds | backend/internal/monitoring/incident_manager.go:208-210 | the number in an ID counts seconds from 1 January 1970 |
| Incidents.SeveritiesAreOrdered | backend/internal/monitoring/incident_manager.go:187-206 | critical outranks warning, and warning every other severity |
| Incidents.AlertAloneIsCall | backend/internal/monitoring/incident_manager.go:44-111 | an interleaved alert call that nothing interrupts has exactly the outcomes of the whole call |
| Incidents.RecoveryAloneIsCall | backend/internal/monitoring/incident_manager.go:173-185 | so has an auto-resolve |
| Incidents.IncidentsStaySound | backend/internal/monitoring/incident_manager.go:92-160 | with Find and Update interleaved arbitrarily: resolved exactly when dated resolved, started <= acknowledged <= resolved; check, name and kind are those of the alert that created it, message and metadata entries those of the last alert applied, every entry is some applied alert's, and severity is an applied one of the maximum rank |
| Incidents.StatusOnlyMovesForward | backend/internal/monitoring/incident_manager.go:114-160 | under the same interleavings status only moves forward, a resolution date is final and severity never drops |
| Incidents.InterleavedAlertsCanDuplicate | backend/internal/monitoring/incident_manager.go:44-59 | for every alert, a schedule of two calls that leaves two incidents open |
| Incidents.BreaksIffLate | backend/internal/monitoring/incident_manager.go:44-89 | an interleaved step breaks one open incident per check if and only if it creates one, under a free ID, for a check that has one by then |
| Incidents.OneOpenIffNeverLate | backend/internal/monitoring/incident_manager.go:44-89 | an interleaved run keeps one open incident per check throughout if and only if it has no such step |
| Incidents.OneOpenWhenAlertsTakeTurns | backend/internal/monitoring/incident_manager.go:44-111 | with Find, Update and Create as separate steps and everything else interleaved: while no check has two ProcessAlert calls in flight, no check ever has two open incidents |
| Pipeline.Service.UpdateConsecutiveTrackers | backend/internal/monitoring/service.go:164-184 | the counters after a batch |
| Pipeline.CountsAreTrailingRuns | backend/internal/monitoring/service.go:164-184 | the counters of a check are the lengths of its trailing unhealthy and healthy runs |
| Pipeline.Service.ProcessIncidentAlerts | backend/internal/monitoring/service.go:186-231 | the calls made to the incident manager, in order, for alerts that pass maintenance and the failure threshold |
| Pipeline.Service.AutoResolveRecovered | backend/internal/monitoring/service.go:233-246 | one auto-resolve for every healthy result whose check has recovered for long enough |
| Pipeline.Service.HandleAlertResults | backend/internal/monitoring/service.go:133-162 | one batch: counters first, then notifications, then incident alerts, then recoveries |
| Pipeline.OneResultDecides | backend/internal/monitoring/service.go:186-246 | after one result its check has an open incident if and only if it had one or the result opens one whose ID is free, and the result does not complete a recovery; at most one incident is created and other checks are untouched |
| Pipeline.RecoveredMeansResolved | backend/internal/monitoring/service.go:233-246 | a batch with a healthy result and a long enough streak leaves no unresolved incident, whatever else it holds |
| Pipeline.IncidentFollowsHistory | backend/internal/monitoring/service.go:133-246 | in every run, every single result leaves its check's incident open if and only if it was open, or a rule fires, no maintenance applies, after an unhealthy result the last FailuresToOpen are unhealthy and the ID is free; and the last SuccessesToResolve results are not all healthy; checks missing from the configuration included |
| Pipeline.HealthyStreakResolves | backend/internal/monitoring/service.go:233-246 | in every run, with batches of any size and any calls in between: after a batch for a check whose last SuccessesToResolve results are healthy, it has no unresolved incident |
| Pipeline.CreationsNeedResults | backend/internal/monitoring/service.go:133-246 | with thresholds F and S, one-result batches, rules that fire on unhealthy results only and no manual resolve, the k-th incident of a check takes at least F + (k-1)(F+S) of its results |
| PipelineReports.CheckMapIsLast | backend/internal/monitoring/service.go:138-146 | each check ID is looked up as its last configuration |
| PipelineReports.EveryReportMatches | backend/internal/monitoring/service.go:186-231 | every alert a batch hands to the incident manager comes from one of its results and a rule matching it: the rule's severity, the result's check and name, the kind of the check's last result, metadata naming the rule, and a server entry exactly when there is a server |
| PipelineReports.EveryMatchIsReported | backend/internal/monitoring/service.go:186-231 | and every rule that matches a result of a check that is let through is handed over, saying so |
| PipelineReports.OpenedIncidentSaysSo | backend/internal/monitoring/service.go:133-231 | a result that opens an incident leaves one with the result's check, name and kind, started now, metadata naming a matching rule, and a severity of the highest rank among all matching rules |
| ConcurrentIncidents.OneOpenPerCheckConcurrently | backend/internal/monitoring/service.go:133-246 | with batches of any size and alerts from elsewhere interleaved critical section by critical section, a check whose own batches and alerts take turns never has two open incidents |
| ConcurrentThresholds.CreationsNeedResultsConcurrently | backend/internal/monitoring/service.go:133-246 | the lower bound on results per incident under every such interleaving, for a check whose alerts come from its batches, one result of it in each |
| ConcurrentThresholds.HealthyStreakResolvesConcurrently | backend/internal/monitoring/service.go:233-246 | and when such a check's last SuccessesToResolve results are healthy and none of its batches is under way past counting, it has no open incident |
| ConcurrentPipeline.OthersKeepOpen | backend/internal/monitoring/incident_manager.go:44-59 | batches and alerts of other checks never open or close a check's incidents, because an incident's ID names its check |
| ConcurrentAlone.BatchAloneIsBatch | backend/internal/monitoring/service.go:133-246 | a batch that runs alone through its critical sections can leave exactly the incidents that its calls can, made one after the other |
| ConcurrentAlone.AlertAloneIsCall | backend/internal/monitoring/incident_manager.go:44-111 | an alert from elsewhere that runs alone has exactly the outcomes of the whole call |
| ConcurrentAlone.AloneCounts | backend/internal/monitoring/service.go:164-184 | the batch counts its results once and moves no other batch |
| ConcurrentAlone.CreatedIsNew | backend/internal/monitoring/incident_manager.go:61-89 | the record of creations grows exactly when an incident is stored, by that incident's check |
| MySQLSamples.CounterDiffExact | backend/internal/monitoring/mysql_models.go:157-163 | on non-negative 64-bit counters the difference is max(0, current - previous) without wrap-around |
| MySQLSamples.RatesRecoverDeltas | backend/internal/monitoring/mysql_models.go:117-154 | every per-second rate times the interval, which is never zero, is the counter's delta |
| MySQLSamples.IntervalIsElapsedTime | backend/internal/monitoring/mysql_models.go:117-121 | the interval times 10^9 is the time between the samples when the later one is later, and one second otherwise |
| MySQLSamples.DeltaDescribesCurrent | backend/internal/monitoring/mysql_models.go:117-154 | the delta names the later sample, and its share of temporary tables on disk is that of the two gains |
| MySQLSamples.DeltasTelescope | backend/internal/monitoring/mysql_models.go:117-163 | deltas are non-negative and sum to last - first plus what resets dropped |
| MySQLSamples.DeltasSum | backend/internal/monitoring/mysql_models.go:117-163 | the sum is at least last - first, with equality if and only if the counter never resets |
| MySQLSamples.FileMySQLRepository.AppendSample | backend/internal/monitoring/mysql/repository.go:51-63 | the sample is appended under its own or a generated ID |
| MySQLSamples.FileMySQLRepository.ComputeAndAppendDelta | backend/internal/monitoring/mysql/repository.go:66-103 | the delta to the newest earlier sample of the same check is appended, or one of the two errors is returned and nothing changes |
| MySQLSamples.DeltasPairConsecutiveSamples | backend/internal/monitoring/mysql/repository.go:66-103 | a delta computed after each append pairs the check's consecutive samples in order, whatever other checks interleave |
| MySQLSamples.DeltaSeries | backend/internal/monitoring/mysql/repository.go:51-103 | the k-th delta lies between the k-th and (k+1)-th samples, and the series adds up to the whole gain exactly when the counter never resets |
| MySQLRules.MySQLRuleEngine.Evaluate | backend/internal/monitoring/mysql_rules.go:59-95 | states and reported actions after a sample, all rules in order |
| MySQLRules.MySQLRuleEngine.SetOpenIncidentID | backend/internal/monitoring/mysql_rules.go:140-149 | only an existing state records the incident |
| MySQLRules.RuleAppliesToCheck | backend/internal/monitoring/mysql_rules.go:212-222 | true exactly when the rule lists no check or lists this one |
| MySQLRules.BreachedIffExceeds | backend/internal/monitoring/mysql_rules.go:152-209 | for every rule, from the samples' own figures: breached if and only if 100 * connections reaches the threshold times a non-zero maxConnections, the running threads reach it, the counter's gain since the sample before reaches it per elapsed second, connections were refused since, or the share of temporary tables on disk reaches it |
| MySQLRules.ActionIsReported | backend/internal/monitoring/mysql_rules.go:98-138 | what a reported action names, the incident forgotten on closing, and the streaks afterwards |
| MySQLRules.StreaksAreRuns | backend/internal/monitoring/mysql_rules.go:115-137 | the streaks are the lengths of the runs at the end of the history |
| MySQLRules.OpenIffUnrecovered | backend/internal/monitoring/mysql_rules.go:98-138 | for every history: OPEN if and only if some N consecutive breaches have no R consecutive recoveries ending after them |
| MySQLRules.ActionsAlternate | backend/internal/monitoring/mysql_rules.go:98-138 | actions strictly alternate, starting with open, and the last one says the status |
| MySQLRules.OtherChecksUntouched | backend/internal/monitoring/mysql_rules.go:59-95 | evaluating one check changes no other check's state |
| MySQLRules.EachRuleStepsOnce | backend/internal/monitoring/mysql_rules.go:59-95 | a rule that applies makes exactly one transition per evaluation |
| MySQLRules.EachRuleActsOnce | backend/internal/monitoring/mysql_rules.go:59-95 | and reports exactly that transition's action |
| MySQLRules.EngineFollowsOwnHistory | backend/internal/monitoring/mysql_rules.go:59-149 | in every run of the engine a rule's state for a check is determined by that check's own samples |
| MySQLRules.EngineOpenIffUnrecovered | backend/internal/monitoring/mysql_rules.go:59-138 | the closed form of OPEN holds in every run with several rules and checks interleaved |
| MySQLRules.EngineOpenIffExceeded | backend/internal/monitoring/mysql_rules.go:59-209 | in every run whose deltas are those between a check's consecutive samples: OPEN if and only if N consecutive samples exceeded the threshold, by their own figures, and no R consecutive ones since have stayed below |
| MySQLRules.EngineActionsAlternate | backend/internal/monitoring/mysql_rules.go:59-138 | and what the engine reports for a rule and check alternates |
| MySQLRules.IdleRuleNeverOpens | backend/internal/monitoring/mysql_rules.go:59-95 | a rule that is switched off, or lists checks but not this one, never has a state for the check, in any run |
| RateLimiter.Limiter.Allow | backend/internal/httpx/ratelimit.go:35-52 | the decision, and the visitor's new entry with all others unchanged |
| RateLimiter.Limiter.Sweep | backend/internal/httpx/ratelimit.go:54-66 | exactly the entries idle for more than twice the window (in 64 bits) go |
| RateLimiter.SweepsAreInvisible | backend/internal/httpx/ratelimit.go:54-66 | sweeps anywhere in a run change no decision, for every window below 2^62 ns |
| RateLimiter.OverflowingWindowShows | backend/internal/httpx/ratelimit.go:54-66 | for every longer window and every rate, a run in which a sweep lets a request through that is denied without it |
| RateLimiter.SweepsInvisibleIffWindowFits | backend/internal/httpx/ratelimit.go:54-66 | at every rate, sweeps show in no run if and only if the window is below 2^62 ns |
| RateLimiter.EachVisitorAlone | backend/internal/httpx/ratelimit.go:35-52 | an IP's decisions depend on its own requests only |
| RateLimiter.AtMostTwiceRatePerWindow | backend/internal/httpx/ratelimit.go:35-66 | in every run with sweeps, a half-open interval of one window holds at most twice as many allowed requests of an IP as one reset allows |
| RateLimiter.TwiceRateIff | backend/internal/httpx/ratelimit.go:35-66 | for every 64-bit rate and positive window, the 2*rate bound holds in all runs if and only if the rate is at least one and the window below 2^62 ns |
| RateLimiter.TooManyRounds | backend/internal/httpx/ratelimit.go:54-66 | with a window of 2^62 ns or more, requests followed by sweeps exceed any rate |
| RateLimiter.CapIs | backend/internal/httpx/ratelimit.go:35-52 | a reset allows rate requests; one for a rate below one; 2^63 for the lowest 64-bit rate, where rate - 1 wraps |
| RateLimiter.DeniedIffUsedUp | backend/internal/httpx/ratelimit.go:35-52 | a request is denied if and only if exactly rate requests were allowed since a reset less than a window ago |
| RateLimiter.DenialsInRuns | backend/internal/httpx/ratelimit.go:35-66 | in every run with sweeps and other IPs, a request is only denied when its IP was allowed rate times less than a window ago |
| Analytics.PercentilesAreMonotone | backend/internal/monitoring/analytics.go:260-272 | min <= percentile(p) <= percentile(q) <= max for 0 <= p <= q <= 1, through interpolation and rounding |
| Analytics.PercentileIsRoundedLine | backend/internal/monitoring/analytics.go:260-272 | a percentile is the rounded value of the line through neighbouring values, on and between positions |
| Analytics.RoundIsNearest | backend/internal/monitoring/analytics.go:271 | rounding goes to a nearest integer, away from zero from half-way |
| Analytics.BetweenIsLinear | backend/internal/monitoring/analytics.go:270-271 | interpolation goes from the lower towards the upper value by the fraction |
| Analytics.PositionIsShare | backend/internal/monitoring/analytics.go:264 | the position of a percentile is its share of the last index |
| Analytics.SortPermutes | backend/internal/monitoring/analytics.go:229 | sorting keeps every duration as often as it occurs |
| Analytics.ComputeResponseTimeBuckets | backend/internal/monitoring/analytics.go:189-257 | the buckets, slot by slot from the truncated cutoff |
| Analytics.EachResultInOneBucket | backend/internal/monitoring/analytics.go:189-257 | every selected result before the end of the last slot is in exactly one bucket, among its durations |
| Analytics.BucketsAccountForResults | backend/internal/monitoring/analytics.go:206-257 | over the results themselves: timestamps increase by at least an interval, on its grid, counts add up to the number of selected results before the end of the last slot, and every bucket describes the results of its slot |
| Analytics.BucketDescribes | backend/internal/monitoring/analytics.go:206-257 | a bucket's count is the number of results of the check and period that start in its slot; average, extremes and percentiles are those of these results' durations, with min <= p50 <= p95 <= p99 <= max and min <= avg <= max |
| Analytics.SlotIsCounted | backend/internal/monitoring/analytics.go:199-225 | the durations of a slot are as many as its selected results, and are theirs |
| AIQueue.FileAIQueue.Enqueue | backend/internal/monitoring/ai/queue.go:61-81 | a new pending item, or nothing if the incident has one pending or processing |
| AIQueue.FileAIQueue.ClaimPending | backend/internal/monitoring/ai/queue.go:83-111 | the queue and the returned items after a claim; a limit of zero or less means ten |
| AIQueue.FileAIQueue.Complete | backend/internal/monitoring/ai/queue.go:113-145 | completes the first active item of the incident and adds one result, or fails and changes nothing |
| AIQueue.FileAIQueue.Fail | backend/internal/monitoring/ai/queue.go:147-165 | fails the first active item of the incident, or changes nothing |
| AIQueue.FileAIQueue.PruneBefore | backend/internal/monitoring/ai/queue.go:167-191 | items and results older than the cutoff go, each list on its own dates |
| AIQueue.ClaimTakesFirstPending | backend/internal/monitoring/ai/queue.go:83-111 | a claim takes the first min(limit, pending) pending items, in order, and marks exactly them |
| AIQueue.RunsKeepOneActive | backend/internal/monitoring/ai/queue.go:61-191 | in every run of queue operations, prunes included, an incident has at most one item pending or processing |
| AIQueue.ItemsMoveForward | backend/internal/monitoring/ai/queue.go:61-165 | items keep their place and incident, status only moves forward, completed and failed are final |
| AIQueue.CallSettles | backend/internal/monitoring/ai/queue.go:113-165 | completing or failing an incident settles its claimed item, even if a manual analysis came first |
| AIQueue.AIService.AnalyzeItem | backend/internal/monitoring/ai/service.go:206-256 | exactly one call to the queue: the first answer of up to RetryCount + 1 attempts, parsed, completes the item, anything else fails it |
| AIQueue.CallMeans | backend/internal/monitoring/ai/service.go:206-256 | the call completes the item exactly if there is a provider and a prompt and an attempt up to the last retry is answered, with the first answer, and otherwise fails it with the reason |
| AIQueue.QueueStaysConsistent | backend/internal/monitoring/ai/service.go:178-256 | with any number of workers, manual analyses and enqueues interleaved: one active item per incident and exactly one result per completed item |
| AIQueue.ClaimedOnce | backend/internal/monitoring/ai/service.go:178-204 | no item is claimed twice, by one processQueue call or by two |
| AIQueue.ReturnedMeansSettled | backend/internal/monitoring/ai/service.go:178-204 | when processQueue has returned, every item it claimed is completed or failed and stays so |
| AIQueue.WorkersProgress | backend/internal/monitoring/ai/service.go:178-204 | a processQueue call takes finitely many steps |
| AIQueue.WorkersNeverStuck | backend/internal/monitoring/ai/service.go:178-204 | the semaphore never blocks the producer, and a call that has not returned can always move |
| Evidence.SortByTime | backend/internal/monitoring/evidence/context_builder.go:87-90 | a permutation in time order; nothing is promised for equal timestamps |
| Evidence.CapEvents | backend/internal/monitoring/evidence/context_builder.go:147-180 | one of the outcomes that the unstable sort allows |
| Evidence.CapKeepsWhatMatters | backend/internal/monitoring/evidence/context_builder.go:147-180 | on more than cap events in time order: exactly cap come back, in order, a sub-multiset of the input; all important ones if they fit and then the newest informational ones, otherwise the first important ones |
| Evidence.ContextBuilder.Collect | backend/internal/monitoring/evidence/context_builder.go:58-100 | cancelled exactly when the context was before some provider; otherwise what the providers returned, sorted and capped |
| Evidence.GatheredFrom | backend/internal/monitoring/evidence/context_builder.go:65-83 | available and missing categories are those of the providers with and without events, in order; the events are all that were returned |
| Evidence.GatheredCategory | backend/internal/monitoring/evidence/context_builder.go:65-83 | a category is missing if and only if one of its providers returned no events, and available if and only if one returned some |
| Evidence.GatheredEvents | backend/internal/monitoring/evidence/context_builder.go:65-83 | a category's events are those of the last of its providers that returned some |
| Evidence.CollectedCounts | backend/internal/monitoring/evidence/context_builder.go:86-98 | the total is what was returned; the cap applies if and only if that is more, and then exactly that many events are kept, in order |
| Evidence.CollectedIsConsistent | backend/internal/monitoring/evidence/context_builder.go:58-100 | every available category has events, and uncapped ones are all kept, even when two providers share a category |
| Evidence.LedgerEventsByCategory | backend/internal/monitoring/evidence/brief.go:319-343 | the events the ledger may use for each category |
| Evidence.KeptCategoriesAre | backend/internal/monitoring/evidence/brief.go:319-343 | under the cap these are exactly the category's events whose ID is that of a kept event |
| Evidence.SeenIffKept | backend/internal/monitoring/evidence/brief.go:319-343 | under the cap the ledger sees exactly the events of available categories whose ID is that of a kept event; without it, all |
| Evidence.BuildCategoryLedgerItem | backend/internal/monitoring/evidence/brief.go:345-460 | the one item of a category with events, with its claim, status, citations and the figures of its rationale |
| Evidence.ItemClaims | backend/internal/monitoring/evidence/brief.go:345-460 | an item's claim and ID go with its status, and the ID ends with the number of its category's event IDs |
| Evidence.HexIsNumeral | backend/internal/monitoring/evidence/brief.go:489-491 | which reads back from its hexadecimal digits |
| Evidence.SummarizeLedger | backend/internal/monitoring/evidence/brief.go:462-477 | how often each status occurs |
| Evidence.SummaryCountsStatuses | backend/internal/monitoring/evidence/brief.go:462-477 | each figure of the summary is the number of items with that status |
| Evidence.BuildEvidenceLedger | backend/internal/monitoring/evidence/brief.go:275-317 | the ledger and its summary, empty without evidence |
| Evidence.LedgerIsGrounded | backend/internal/monitoring/evidence/brief.go:275-487 | on collected evidence: one item per available category, with the status, citations and figures that its events call for, and one per missing category, in order; counters add up to its length; every cited ID belongs to a kept event |

## Left out

- Time zones with daylight saving: a window's location is a fixed offset.
- Restarting the scheduler: its context is never renewed after `Stop`, and the model has one context. What the timers of `UpsertSchedule` do is an arbitrary arrival of `runCheck` calls.
- `RunOnce` without enabled checks returns before it builds the pool, and is not in the pool's model; persisting results and the summary are left out.
- Check execution, SSH, AI providers, prompts, MongoDB repositories and JSONL files: their answers are arbitrary values, and persistence succeeds.
- Floating-point rounding: percentiles, averages, rates and alert comparisons use exact reals.
- Analytics.ComputeResponseTimeBuckets: sums of durations are unbounded integers, because a 64-bit overflow needs durations of millions of years.
- AlertMessages.ParseAlertMessageParts: lower-casing is that of ASCII, because the printed labels are ASCII; white space is all of Unicode.
- Copies of metadata maps share storage in Go; the model's maps are values, so a mutator that changed the map and then refused is not captured (none does).
- Pipeline.Service.HandleAlertResults: one batch is one step there and reads the clock once, as a single goroutine sees it; interleaved batches, each reading the clock anew at every step from 1970 on, are the subject of `ConcurrentPipeline.dfy`; the laws about it take the batches and alerts of one check to follow one another. The code does not enforce that: an update of a check's schedule leaves its old loop running, and manual runs go on beside the loops. A service without an alert engine or incident manager is not modelled.
- AIQueue.AIService.AnalyzeItem: how a response's text is parsed is an arbitrary function, because it is JSON decoding; pauses between attempts take no time.
- Evidence.BuildCategoryLedgerItem: which sentence and which figures an item gives are modelled; the wording of the sentences is not.
- Prompt formatting, citations, timeline, confidence score, uptime figures, dashboards, users, status pages, notification channels and HTTP handlers: no property beyond what each says itself.
